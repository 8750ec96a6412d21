/** Logs whose entries carry a number, and the claim that every number issued has its one entry. */
module Tally {
  function Times<T>(log: seq<(nat, T)>, number: nat): nat {
    if log == [] then 0
    else Times(log[..|log| - 1], number) + if log[|log| - 1].0 == number then 1 else 0
  }

  lemma TimesAppend<T>(log: seq<(nat, T)>, entry: (nat, T), number: nat)
    ensures Times(log + [entry], number) == Times(log, number) + if entry.0 == number then 1 else 0
  {
    assert (log + [entry])[..|log|] == log;
  }

  /** Of the numbers below `issued`, those in `owed` have no entry yet and the others have one. */
  ghost predicate Once<T>(log: seq<(nat, T)>, owed: set<nat>, issued: nat) {
    forall n: nat :: Times(log, n) + (if n in owed then 1 else 0) == if n < issued then 1 else 0
  }

  lemma OncePaid<T>(log: seq<(nat, T)>, owed: set<nat>, issued: nat, entry: (nat, T))
    requires Once(log, owed, issued) && entry.0 in owed
    ensures Once(log + [entry], owed - {entry.0}, issued)
  {
    forall n: nat ensures Times(log + [entry], n) == Times(log, n) + if entry.0 == n then 1 else 0 {
      TimesAppend(log, entry, n);
    }
  }

  lemma OnceIssued<T>(log: seq<(nat, T)>, owed: set<nat>, issued: nat)
    requires Once(log, owed, issued)
    ensures Once(log, owed + {issued}, issued + 1)
  {
    assert Times(log, issued) + (if issued in owed then 1 else 0) == 0;
  }

  /** A number is issued and has its entry at once. */
  lemma OnceRefused<T>(log: seq<(nat, T)>, owed: set<nat>, issued: nat, value: T)
    requires Once(log, owed, issued)
    ensures Once(log + [(issued, value)], owed, issued + 1)
  {
    OnceIssued(log, owed, issued);
    OncePaid(log, owed + {issued}, issued + 1, (issued, value));
    assert Times(log, issued) + (if issued in owed then 1 else 0) == 0;
    assert owed + {issued} - {issued} == owed;
  }

  /** When nothing is owed every number issued has exactly one entry. */
  lemma OnceAll<T>(log: seq<(nat, T)>, owed: set<nat>, issued: nat)
    requires Once(log, owed, issued) && owed == {}
    ensures forall n: nat :: Times(log, n) == if n < issued then 1 else 0
  {
    forall n: nat ensures Times(log, n) == if n < issued then 1 else 0 {
      assert Times(log, n) + (if n in owed then 1 else 0) == if n < issued then 1 else 0;
    }
  }

  /** A number issued and not owed has its entry. */
  lemma OncePresent<T>(log: seq<(nat, T)>, owed: set<nat>, issued: nat, n: nat)
    requires Once(log, owed, issued) && n < issued && n !in owed
    ensures Times(log, n) == 1
  {
  }

  /** Only numbers issued are owed. */
  lemma OwedIsIssued<T>(log: seq<(nat, T)>, owed: set<nat>, issued: nat, n: nat)
    requires Once(log, owed, issued) && n in owed
    ensures n < issued
  {
    assert Times(log, n) + (if n in owed then 1 else 0) == if n < issued then 1 else 0;
  }
}
