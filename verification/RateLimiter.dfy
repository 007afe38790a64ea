/** The limiter that decides which desktop notifications are sent: a greedy choice per workspace and
    class of signal, made as the events arrive. */
module RateLimiter {
  import opened Wrappers

  datatype SignalClass = Attention | Completion | Failure | Collision

  /** The cooldown is a duration in whole milliseconds, which may exceed 64 bits. */
  datatype Rule = Rule(enabled: bool, cooldown: nat)

  datatype Key = Key(workspace: nat, signal: SignalClass)

  datatype Event = Event(key: Key, at: nat)

  type Settings = SignalClass -> Rule

  /** The cooldown as the limiter reads it, clamped to 64 bits. */
  function Cooldown(rule: Rule): nat {
    if rule.cooldown > U64_MAX then U64_MAX else rule.cooldown
  }

  function SaturatingSub(a: nat, b: nat): nat {
    if a >= b then a - b else 0
  }

  predicate Allows(lastSent: map<Key, nat>, event: Event, rule: Rule) {
    && rule.enabled
    && !(event.key in lastSent && SaturatingSub(event.at, lastSent[event.key]) < Cooldown(rule))
  }

  class NotificationRateLimiter {
    var lastSent: map<Key, nat>

    constructor ()
      ensures lastSent == map[]
    {
      lastSent := map[];
    }

    method ShouldSend(workspace: nat, signal: SignalClass, occurredAt: nat, settings: Settings)
      returns (send: bool)
      modifies this
      ensures var key, rule := Key(workspace, signal), settings(signal);
              var cooldown := if rule.cooldown <= U64_MAX then rule.cooldown else U64_MAX;
              && (send <==>
                    && rule.enabled
                    && (key !in old(lastSent) || cooldown == 0 || occurredAt >= old(lastSent)[key] + cooldown))
              && lastSent == if send then old(lastSent)[key := occurredAt] else old(lastSent)
      ensures lastSent == Next(old(lastSent), Event(Key(workspace, signal), occurredAt), settings)
    {
      var rule := settings(signal);
      if !rule.enabled {
        return false;
      }
      var key := Key(workspace, signal);
      if key in lastSent && SaturatingSub(occurredAt, lastSent[key]) < Cooldown(rule) {
        return false;
      }
      lastSent := lastSent[key := occurredAt];
      return true;
    }
  }

  // ----- Runs -----

  function Next(lastSent: map<Key, nat>, event: Event, settings: Settings): map<Key, nat> {
    if Allows(lastSent, event, settings(event.key.signal)) then lastSent[event.key := event.at] else lastSent
  }

  /** What a fresh limiter remembers after a run of events of any mix of keys. */
  function After(events: seq<Event>, settings: Settings): map<Key, nat> {
    if events == [] then map[]
    else Next(After(events[..|events| - 1], settings), events[|events| - 1], settings)
  }

  predicate Sent(events: seq<Event>, i: nat, settings: Settings)
    requires i < |events|
  {
    Allows(After(events[..i], settings), events[i], settings(events[i].key.signal))
  }

  function SentCount(events: seq<Event>, key: Key, settings: Settings): nat {
    if events == [] then 0
    else
      var last := |events| - 1;
      SentCount(events[..last], key, settings)
      + (if events[last].key == key && Sent(events, last, settings) then 1 else 0)
  }

  predicate TimeOrdered(events: seq<Event>, key: Key) {
    forall i, j :: 0 <= i < j < |events| && events[i].key == key && events[j].key == key ==>
      events[i].at <= events[j].at
  }

  /** A selection of events of one key that keeps the cooldown between any two of them. */
  predicate Separated(events: seq<Event>, key: Key, chosen: seq<nat>, cooldown: nat) {
    && (forall i :: 0 <= i < |chosen| ==> chosen[i] < |events| && events[chosen[i]].key == key)
    && (forall i, j :: 0 <= i < j < |chosen| ==>
          chosen[i] < chosen[j] && events[chosen[j]].at >= events[chosen[i]].at + cooldown)
  }

  // ----- Proofs -----

  /** A shorter run decides its events the same way. */
  lemma PrefixSent(events: seq<Event>, n: nat, settings: Settings)
    requires n <= |events|
    ensures forall i :: 0 <= i < n ==> Sent(events[..n], i, settings) == Sent(events, i, settings)
  {
    forall i | 0 <= i < n
      ensures Sent(events[..n], i, settings) == Sent(events, i, settings)
    {
      assert events[..n][..i] == events[..i];
    }
  }

  /** The limiter remembers the latest event it sent for the key. */
  lemma {:induction false} RemembersLatestSent(events: seq<Event>, key: Key, settings: Settings)
    requires TimeOrdered(events, key)
    ensures var memory := After(events, settings);
      && (key in memory ==> exists i ::
            0 <= i < |events| && events[i].key == key && events[i].at == memory[key]
            && Sent(events, i, settings))
      && (forall i :: 0 <= i < |events| && events[i].key == key && Sent(events, i, settings) ==>
            key in memory && events[i].at <= memory[key])
  {
    if events != [] {
      var last := |events| - 1;
      RemembersLatestSent(events[..last], key, settings);
      PrefixSent(events, last, settings);
      var before, memory := After(events[..last], settings), After(events, settings);
      if events[last].key == key && Sent(events, last, settings) {
        assert memory[key] == events[last].at;
      } else {
        assert key in memory ==> key in before && memory[key] == before[key];
        if key in memory {
          var i :| 0 <= i < last && events[..last][i].key == key && events[..last][i].at == before[key]
                   && Sent(events[..last], i, settings);
          assert events[i].key == key && Sent(events, i, settings);
        }
      }
    }
  }

  /** Two notifications of one workspace and class are never closer than the cooldown. */
  lemma SentAreSpaced(events: seq<Event>, i: nat, j: nat, settings: Settings)
    requires i < j < |events| && events[i].key == events[j].key
    requires TimeOrdered(events, events[j].key)
    requires Sent(events, i, settings) && Sent(events, j, settings)
    ensures var rule := settings(events[j].key.signal);
            events[j].at >= events[i].at + if rule.cooldown <= U64_MAX then rule.cooldown else U64_MAX
  {
    RemembersLatestSent(events[..j], events[j].key, settings);
    PrefixSent(events, j, settings);
    assert events[..j][i] == events[i];
  }

  /** An event of an enabled class is held back only within the cooldown of one that was sent. */
  lemma SuppressedIsRecent(events: seq<Event>, j: nat, settings: Settings) returns (i: nat)
    requires j < |events| && TimeOrdered(events, events[j].key)
    requires settings(events[j].key.signal).enabled && !Sent(events, j, settings)
    ensures i < j && events[i].key == events[j].key && Sent(events, i, settings)
    ensures var rule := settings(events[j].key.signal);
            events[i].at <= events[j].at < events[i].at + if rule.cooldown <= U64_MAX then rule.cooldown else U64_MAX
  {
    var key := events[j].key;
    RemembersLatestSent(events[..j], key, settings);
    PrefixSent(events, j, settings);
    var memory := After(events[..j], settings);
    i :| 0 <= i < j && events[..j][i].key == key && events[..j][i].at == memory[key]
         && Sent(events[..j], i, settings);
  }

  /** Exactly which events are sent: those of an enabled class that keep the cooldown from all that were sent before. */
  lemma SentIffSpaced(events: seq<Event>, j: nat, settings: Settings)
    requires j < |events| && TimeOrdered(events, events[j].key)
    ensures var rule := settings(events[j].key.signal);
            Sent(events, j, settings) <==>
              && rule.enabled
              && (forall i :: 0 <= i < j && events[i].key == events[j].key && Sent(events, i, settings) ==>
                    events[j].at >= events[i].at + if rule.cooldown <= U64_MAX then rule.cooldown else U64_MAX)
  {
    if settings(events[j].key.signal).enabled && !Sent(events, j, settings) {
      var i := SuppressedIsRecent(events, j, settings);
    } else if Sent(events, j, settings) {
      forall i: nat | i < j && events[i].key == events[j].key && Sent(events, i, settings)
        ensures var rule := settings(events[j].key.signal);
                events[j].at >= events[i].at + if rule.cooldown <= U64_MAX then rule.cooldown else U64_MAX
      {
        SentAreSpaced(events, i, j, settings);
      }
    }
  }

  lemma {:induction false} CountedIsRemembered(events: seq<Event>, key: Key, settings: Settings)
    ensures SentCount(events, key, settings) > 0 <==> key in After(events, settings)
  {
    if events != [] {
      CountedIsRemembered(events[..|events| - 1], key, settings);
    }
  }

  lemma ShorterSelection(events: seq<Event>, key: Key, chosen: seq<nat>, n: nat, cooldown: nat)
    requires Separated(events, key, chosen, cooldown) && n <= |chosen| && |events| > 0
    requires n == |chosen| ==> chosen == [] || chosen[n - 1] < |events| - 1
    ensures Separated(events[..|events| - 1], key, chosen[..n], cooldown)
  {
    var shorter := events[..|events| - 1];
    forall i | 0 <= i < n
      ensures chosen[i] < |shorter| && shorter[chosen[i]].key == key
    {
      if i < |chosen| - 1 {
        assert chosen[i] < chosen[|chosen| - 1];
      }
    }
  }

  /** The selection is no larger than the greedy choice and, at equal size, ends no earlier. */
  ghost predicate Behind(events: seq<Event>, key: Key, chosen: seq<nat>, settings: Settings)
    requires forall i :: 0 <= i < |chosen| ==> chosen[i] < |events|
  {
    && |chosen| <= SentCount(events, key, settings)
    && (|chosen| == SentCount(events, key, settings) > 0 ==>
          && key in After(events, settings)
          && events[chosen[|chosen| - 1]].at >= After(events, settings)[key])
  }

  /** Choosing the newest event on top of a selection that is behind leaves it behind. */
  lemma ChoosingLastStaysBehind(events: seq<Event>, key: Key, chosen: seq<nat>, settings: Settings)
    requires events != [] && chosen != [] && chosen[|chosen| - 1] == |events| - 1
    requires TimeOrdered(events, key) && settings(key.signal).enabled
    requires Separated(events, key, chosen, Cooldown(settings(key.signal)))
    requires Separated(events[..|events| - 1], key, chosen[..|chosen| - 1], Cooldown(settings(key.signal)))
    requires Behind(events[..|events| - 1], key, chosen[..|chosen| - 1], settings)
    ensures Behind(events, key, chosen, settings)
  {
    var last, n := |events| - 1, |chosen| - 1;
    var shorter := events[..last];
    CountedIsRemembered(shorter, key, settings);
    if n == SentCount(shorter, key, settings) && n > 0 {
      assert events[chosen[n - 1]] == shorter[chosen[..n][n - 1]];
      assert Sent(events, last, settings);
    } else if key in After(shorter, settings) {
      RemembersLatestSent(shorter, key, settings);
      var i :| 0 <= i < last && shorter[i].key == key && shorter[i].at == After(shorter, settings)[key]
               && Sent(shorter, i, settings);
      assert events[i].at <= events[last].at;
    }
  }

  /** Skipping the newest event leaves a selection behind too. */
  lemma SkippingLastStaysBehind(events: seq<Event>, key: Key, chosen: seq<nat>, settings: Settings)
    requires events != [] && TimeOrdered(events, key) && settings(key.signal).enabled
    requires Separated(events, key, chosen, Cooldown(settings(key.signal)))
    requires Separated(events[..|events| - 1], key, chosen, Cooldown(settings(key.signal)))
    requires Behind(events[..|events| - 1], key, chosen, settings)
    ensures Behind(events, key, chosen, settings)
  {
  }

  lemma {:induction false} SelectionStaysBehind(events: seq<Event>, key: Key, chosen: seq<nat>, settings: Settings)
    requires TimeOrdered(events, key) && settings(key.signal).enabled
    requires Separated(events, key, chosen, Cooldown(settings(key.signal)))
    ensures Behind(events, key, chosen, settings)
  {
    if events != [] {
      var last, cooldown := |events| - 1, Cooldown(settings(key.signal));
      if chosen != [] && chosen[|chosen| - 1] == last {
        ShorterSelection(events, key, chosen, |chosen| - 1, cooldown);
        SelectionStaysBehind(events[..last], key, chosen[..|chosen| - 1], settings);
        ChoosingLastStaysBehind(events, key, chosen, settings);
      } else {
        ShorterSelection(events, key, chosen, |chosen|, cooldown);
        assert chosen[..|chosen|] == chosen;
        SelectionStaysBehind(events[..last], key, chosen, settings);
        SkippingLastStaysBehind(events, key, chosen, settings);
      }
    }
  }

  /** The greedy choice stays ahead of every other: it never has fewer events, and among selections of
      its own size it has the earliest last one. */
  lemma GreedyStaysAhead(events: seq<Event>, key: Key, chosen: seq<nat>, settings: Settings)
    requires TimeOrdered(events, key) && settings(key.signal).enabled
    requires Separated(events, key, chosen,
                       if settings(key.signal).cooldown <= U64_MAX then settings(key.signal).cooldown else U64_MAX)
    ensures Behind(events, key, chosen, settings)
  {
    SelectionStaysBehind(events, key, chosen, settings);
  }

  /** The events of a key that are sent, in order. */
  ghost function SentOf(events: seq<Event>, key: Key, settings: Settings): seq<nat> {
    if events == [] then []
    else
      var last := |events| - 1;
      SentOf(events[..last], key, settings)
      + (if events[last].key == key && Sent(events, last, settings) then [last] else [])
  }

  lemma {:induction false} SentOfIsSent(events: seq<Event>, key: Key, settings: Settings)
    ensures |SentOf(events, key, settings)| == SentCount(events, key, settings)
    ensures forall i: nat :: i in SentOf(events, key, settings)
              <==> i < |events| && events[i].key == key && Sent(events, i, settings)
  {
    if events != [] {
      SentOfIsSent(events[..|events| - 1], key, settings);
      PrefixSent(events, |events| - 1, settings);
    }
  }

  lemma LongerSelection(events: seq<Event>, key: Key, chosen: seq<nat>, cooldown: nat)
    requires events != [] && Separated(events[..|events| - 1], key, chosen, cooldown)
    ensures Separated(events, key, chosen, cooldown)
    ensures events[|events| - 1].key == key
      && (forall i :: 0 <= i < |chosen| ==> events[|events| - 1].at >= events[chosen[i]].at + cooldown)
      ==> Separated(events, key, chosen + [|events| - 1], cooldown)
  {
  }

  /** The events that are sent are themselves such a selection. */
  lemma {:induction false} SentAreSelection(events: seq<Event>, key: Key, settings: Settings)
    requires TimeOrdered(events, key)
    ensures Separated(events, key, SentOf(events, key, settings),
                      if settings(key.signal).cooldown <= U64_MAX then settings(key.signal).cooldown else U64_MAX)
  {
    if events != [] {
      var last, cooldown := |events| - 1, Cooldown(settings(key.signal));
      var chosen := SentOf(events[..last], key, settings);
      SentAreSelection(events[..last], key, settings);
      LongerSelection(events, key, chosen, cooldown);
      if events[last].key == key && Sent(events, last, settings) {
        forall i | 0 <= i < |chosen|
          ensures events[last].at >= events[chosen[i]].at + cooldown
        {
          SentOfIsSent(events[..last], key, settings);
          PrefixSent(events, last, settings);
          assert chosen[i] in chosen;
          SentAreSpaced(events, chosen[i], last, settings);
        }
      }
    }
  }

  /** No selection that keeps the cooldown notifies more often than the limiter does. */
  lemma GreedyIsOptimal(events: seq<Event>, key: Key, chosen: seq<nat>, settings: Settings)
    requires TimeOrdered(events, key) && settings(key.signal).enabled
    requires Separated(events, key, chosen,
                       if settings(key.signal).cooldown <= U64_MAX then settings(key.signal).cooldown else U64_MAX)
    ensures |chosen| <= SentCount(events, key, settings)
  {
    GreedyStaysAhead(events, key, chosen, settings);
  }
}
