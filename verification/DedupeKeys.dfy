/** The sets of keys for which a "used" event was sent already, which forget everything when full. */
module DedupeKeys {
  import opened Sets
  import opened Wrappers

  const MAX_KEYS: nat := 4096

  /** A turn and a connector, or a turn and a plugin. */
  type Key = (string, string)

  function Count<T(==)>(s: seq<T>, x: T): nat {
    if s == [] then 0 else Count(s[..|s| - 1], x) + if s[|s| - 1] == x then 1 else 0
  }

  lemma CountAppend<T>(s: seq<T>, last: T, x: T)
    ensures Count(s + [last], x) == Count(s, x) + if last == x then 1 else 0
  {
    assert (s + [last])[..|s|] == s;
  }

  /**
   * The accepted keys fall into full rounds of MAX_KEYS and the keys held now, with no key twice
   * in a round.
   */
  ghost predicate Rounds(emitted: set<Key>, accepted: seq<Key>, rounds: nat) {
    && |emitted| <= MAX_KEYS
    && |accepted| == rounds * MAX_KEYS + |emitted|
    && forall key :: Count(accepted, key) <= rounds + if key in emitted then 1 else 0
  }

  lemma RoundsAccept(emitted: set<Key>, accepted: seq<Key>, rounds: nat, key: Key)
    requires Rounds(emitted, accepted, rounds) && key !in emitted && |emitted| < MAX_KEYS
    ensures Rounds(emitted + {key}, accepted + [key], rounds)
  {
    forall k ensures Count(accepted + [key], k) <= rounds + if k in emitted + {key} then 1 else 0 {
      CountAppend(accepted, key, k);
    }
  }

  lemma RoundsClear(emitted: set<Key>, accepted: seq<Key>, rounds: nat)
    requires Rounds(emitted, accepted, rounds) && |emitted| == MAX_KEYS
    ensures Rounds({}, accepted, rounds + 1)
  {
    forall key ensures Count(accepted, key) <= rounds + 1 {
      assert Count(accepted, key) <= rounds + if key in emitted then 1 else 0;
    }
  }

  function CeilDiv(a: nat, b: nat): nat
    requires 0 < b
  {
    (a + b - 1) / b
  }

  /** Of so many accepted keys, each was accepted once for every full or started round. */
  lemma AcceptedAtMost(emitted: set<Key>, accepted: seq<Key>, rounds: nat, key: Key)
    requires Rounds(emitted, accepted, rounds)
    ensures Count(accepted, key) <= CeilDiv(|accepted|, MAX_KEYS)
  {
    if key in emitted {
      assert {key} <= emitted;
      SubsetSize({key}, emitted);
    }
  }

  /** No key was accepted more often than there were full or started rounds. */
  ghost predicate Bounded(accepted: seq<Key>) {
    forall key :: Count(accepted, key) <= CeilDiv(|accepted|, 4096)
  }

  lemma AllBounded(emitted: set<Key>, accepted: seq<Key>, rounds: nat)
    requires Rounds(emitted, accepted, rounds)
    ensures Bounded(accepted)
  {
    forall key ensures Count(accepted, key) <= CeilDiv(|accepted|, 4096) {
      AcceptedAtMost(emitted, accepted, rounds, key);
    }
  }

  /** The keys accepted since the set was last full. */
  function SinceFull(accepted: seq<Key>): seq<Key> {
    accepted[|accepted| / 4096 * 4096..]
  }

  /** There is no key to remember, or it has not been accepted since the set was last full. */
  predicate IsNew(accepted: seq<Key>, key: Option<Key>) {
    key.None? || key.value !in SinceFull(accepted)
  }

  /** The set holds the keys accepted in this round. */
  ghost predicate HoldsRound(emitted: set<Key>, accepted: seq<Key>, rounds: nat) {
    rounds * MAX_KEYS <= |accepted| && emitted == set key | key in accepted[rounds * MAX_KEYS..]
  }

  lemma RoundGrows(emitted: set<Key>, accepted: seq<Key>, rounds: nat, key: Key)
    requires HoldsRound(emitted, accepted, rounds)
    ensures HoldsRound(emitted + {key}, accepted + [key], rounds)
  {
    assert (accepted + [key])[rounds * MAX_KEYS..] == accepted[rounds * MAX_KEYS..] + [key];
  }

  /** Once a full set has been emptied, it holds what was accepted since it was full. */
  lemma HeldSinceFull(emitted: set<Key>, accepted: seq<Key>, rounds: nat)
    requires Rounds(emitted, accepted, rounds) && HoldsRound(emitted, accepted, rounds)
    ensures |emitted| < MAX_KEYS ==> emitted == set key | key in SinceFull(accepted)
    ensures |emitted| == MAX_KEYS ==> SinceFull(accepted) == []
  {
    assert |accepted| / MAX_KEYS == if |emitted| < MAX_KEYS then rounds else rounds + 1;
  }

  /** One of the two sets of the queue. */
  class EmittedKeys {
    var emitted: set<Key>
    ghost var accepted: seq<Key>
    ghost var rounds: nat

    ghost predicate Valid()
      reads this
    {
      Rounds(emitted, accepted, rounds) && HoldsRound(emitted, accepted, rounds)
    }

    constructor ()
      ensures Valid() && accepted == [] && emitted == {}
    {
      emitted, accepted, rounds := {}, [], 0;
    }

    /** A full set is emptied first; then the key is accepted if it is not there. */
    method Insert(key: Key) returns (inserted: bool)
      requires Valid()
      modifies this
      ensures Valid() && emitted == (if |old(emitted)| >= MAX_KEYS then {} else old(emitted)) + {key}
      ensures inserted <==> key !in old(emitted) || |old(emitted)| >= MAX_KEYS
      ensures inserted <==> IsNew(old(accepted), Some(key))
      ensures accepted == if inserted then old(accepted) + [key] else old(accepted)
    {
      HeldSinceFull(emitted, accepted, rounds);
      if |emitted| >= MAX_KEYS {
        RoundsClear(emitted, accepted, rounds);
        emitted, rounds := {}, rounds + 1;
      }
      inserted := key !in emitted;
      if inserted {
        RoundsAccept(emitted, accepted, rounds, key);
        RoundGrows(emitted, accepted, rounds, key);
        accepted := accepted + [key];
      } else {
        assert emitted + {key} == emitted;
      }
      emitted := emitted + {key};
    }
  }

  /** An app that was used, by its connector if it has one, or a plugin. */
  datatype Use = App(turnId: string, connectorId: Option<string>) | Plugin(turnId: string, pluginId: string)

  /** `AnalyticsEventsQueue`, as far as it remembers what it has sent. */
  class AnalyticsEventsQueue {
    const appUsed: EmittedKeys
    const pluginUsed: EmittedKeys

    ghost predicate Valid()
      reads this, appUsed, pluginUsed
    {
      appUsed != pluginUsed && appUsed.Valid() && pluginUsed.Valid()
    }

    constructor ()
      ensures Valid() && fresh(appUsed) && fresh(pluginUsed)
      ensures appUsed.accepted == [] && pluginUsed.accepted == []
    {
      appUsed := new EmittedKeys();
      pluginUsed := new EmittedKeys();
    }

    /** `should_enqueue_app_used`: without a connector nothing is remembered. */
    method ShouldEnqueueAppUsed(turnId: string, connectorId: Option<string>) returns (r: bool)
      requires Valid()
      modifies appUsed
      ensures Valid()
      ensures connectorId.None? ==>
        r && appUsed.emitted == old(appUsed.emitted) && appUsed.accepted == old(appUsed.accepted)
      ensures connectorId.Some? ==>
        var key := (turnId, connectorId.value);
        && (r <==> key !in old(appUsed.emitted) || |old(appUsed.emitted)| >= MAX_KEYS)
        && appUsed.emitted == (if |old(appUsed.emitted)| >= MAX_KEYS then {} else old(appUsed.emitted)) + {key}
        && appUsed.accepted == (if r then old(appUsed.accepted) + [key] else old(appUsed.accepted))
        && (r <==> IsNew(old(appUsed.accepted), Some(key)))
    {
      if connectorId.None? {
        return true;
      }
      r := appUsed.Insert((turnId, connectorId.value));
    }

    /** `should_enqueue_plugin_used`. */
    method ShouldEnqueuePluginUsed(turnId: string, pluginId: string) returns (r: bool)
      requires Valid()
      modifies pluginUsed
      ensures Valid()
      ensures var key := (turnId, pluginId);
        && (r <==> key !in old(pluginUsed.emitted) || |old(pluginUsed.emitted)| >= MAX_KEYS)
        && pluginUsed.emitted ==
             (if |old(pluginUsed.emitted)| >= MAX_KEYS then {} else old(pluginUsed.emitted)) + {key}
        && pluginUsed.accepted == (if r then old(pluginUsed.accepted) + [key] else old(pluginUsed.accepted))
        && (r <==> IsNew(old(pluginUsed.accepted), Some(key)))
    {
      r := pluginUsed.Insert((turnId, pluginId));
    }

    method ShouldEnqueue(use: Use) returns (r: bool)
      requires Valid()
      modifies appUsed, pluginUsed
      ensures Valid()
      ensures r <==> IsNew(old(appUsed.accepted), AppKey(use)) && IsNew(old(pluginUsed.accepted), PluginKey(use))
      ensures appUsed.accepted == old(appUsed.accepted) + Accepted(AppKey, use, r)
      ensures pluginUsed.accepted == old(pluginUsed.accepted) + Accepted(PluginKey, use, r)
    {
      match use
      case App(turnId, connectorId) => r := ShouldEnqueueAppUsed(turnId, connectorId);
      case Plugin(turnId, pluginId) => r := ShouldEnqueuePluginUsed(turnId, pluginId);
    }

    /** What the sets remember of these calls, and that each was answered as it should be. */
    ghost predicate Remembers(uses: seq<Use>, answers: seq<bool>)
      reads this, appUsed, pluginUsed
    {
      && Valid() && |answers| == |uses|
      && appUsed.accepted == AcceptedOf(AppKey, uses, answers)
      && pluginUsed.accepted == AcceptedOf(PluginKey, uses, answers)
      && AnswersRight(uses, answers)
    }

    method Next(use: Use, ghost uses: seq<Use>, ghost answers: seq<bool>) returns (r: bool)
      requires Remembers(uses, answers)
      modifies appUsed, pluginUsed
      ensures Remembers(uses + [use], answers + [r])
    {
      r := ShouldEnqueue(use);
      AcceptedAppend(AppKey, uses, answers, use, r);
      AcceptedAppend(PluginKey, uses, answers, use, r);
      RightAppend(uses, answers, use, r);
    }

    /**
     * Any run of calls: each is answered yes exactly if its key has not been accepted since its
     * set was last full, or it has none; each set stays within its bound and so do the repetitions
     * of a key; the keys accepted are those of the calls that were answered yes, in order.
     */
    method Run(uses: seq<Use>) returns (answers: seq<bool>)
      requires Valid() && appUsed.accepted == [] && pluginUsed.accepted == []
      modifies appUsed, pluginUsed
      ensures Remembers(uses, answers)
      ensures |appUsed.emitted| <= 4096 && |pluginUsed.emitted| <= 4096
      ensures Bounded(appUsed.accepted) && Bounded(pluginUsed.accepted)
    {
      answers := [];
      assert uses[..0] == [];
      for i := 0 to |uses|
        invariant Remembers(uses[..i], answers)
      {
        assert uses[..i + 1] == uses[..i] + [uses[i]];
        var r := Next(uses[i], uses[..i], answers);
        answers := answers + [r];
      }
      assert uses[..|uses|] == uses;
      AllBounded(appUsed.emitted, appUsed.accepted, appUsed.rounds);
      AllBounded(pluginUsed.emitted, pluginUsed.accepted, pluginUsed.rounds);
    }
  }

  function AppKey(use: Use): Option<Key> {
    if use.App? && use.connectorId.Some? then Some((use.turnId, use.connectorId.value)) else None
  }

  function PluginKey(use: Use): Option<Key> {
    if use.Plugin? then Some((use.turnId, use.pluginId)) else None
  }

  /** The key that an answer accepts, if it is one of this set. */
  function Accepted(keyOf: Use -> Option<Key>, use: Use, answer: bool): seq<Key> {
    if answer && keyOf(use).Some? then [keyOf(use).value] else []
  }

  function AcceptedOf(keyOf: Use -> Option<Key>, uses: seq<Use>, answers: seq<bool>): seq<Key>
    requires |uses| == |answers|
  {
    if uses == [] then []
    else
      var n := |uses| - 1;
      AcceptedOf(keyOf, uses[..n], answers[..n]) + Accepted(keyOf, uses[n], answers[n])
  }

  /** Each call is answered yes exactly if its key is new to its set. */
  predicate AnswersRight(uses: seq<Use>, answers: seq<bool>)
    requires |uses| == |answers|
  {
    forall i | 0 <= i < |uses| ::
      answers[i] <==>
        && IsNew(AcceptedOf(AppKey, uses[..i], answers[..i]), AppKey(uses[i]))
        && IsNew(AcceptedOf(PluginKey, uses[..i], answers[..i]), PluginKey(uses[i]))
  }

  lemma RightAppend(uses: seq<Use>, answers: seq<bool>, use: Use, answer: bool)
    requires |uses| == |answers| && AnswersRight(uses, answers)
    requires answer <==>
      && IsNew(AcceptedOf(AppKey, uses, answers), AppKey(use))
      && IsNew(AcceptedOf(PluginKey, uses, answers), PluginKey(use))
    ensures AnswersRight(uses + [use], answers + [answer])
  {
    var moreUses, moreAnswers := uses + [use], answers + [answer];
    forall i | 0 <= i <= |uses| ensures moreUses[..i] == uses[..i] && moreAnswers[..i] == answers[..i] {
    }
    assert uses[..|uses|] == uses && answers[..|answers|] == answers;
  }

  lemma AcceptedAppend(keyOf: Use -> Option<Key>, uses: seq<Use>, answers: seq<bool>, use: Use, answer: bool)
    requires |uses| == |answers|
    ensures AcceptedOf(keyOf, uses + [use], answers + [answer])
         == AcceptedOf(keyOf, uses, answers) + Accepted(keyOf, use, answer)
  {
    assert (uses + [use])[..|uses|] == uses && (answers + [answer])[..|answers|] == answers;
  }
}
