/** Long-term user memory: the free-text facts learnt about a user, de-duplicated by exact text. */
module Memory {

  /** The facts after inserting `nuevos` one after another, skipping exact duplicates. */
  function AddFacts(facts: seq<string>, nuevos: seq<string>): (r: seq<string>)
    ensures facts <= r && |r| <= |facts| + |nuevos|
    decreases |nuevos|
  {
    if nuevos == [] then facts
    else AddFacts(if nuevos[0] in facts then facts else facts + [nuevos[0]], nuevos[1..])
  }

  ghost predicate Distinct(s: seq<string>)
  {
    forall i, j :: 0 <= i < j < |s| ==> s[i] != s[j]
  }

  /**
   * Inserting facts keeps the old ones in place, ends with exactly the old
   * facts and the new ones, never introduces a duplicate, and leaves the
   * table as it was when every new fact is already known.
   */
  lemma {:induction false} AddFactsSpec(facts: seq<string>, nuevos: seq<string>)
    ensures facts <= AddFacts(facts, nuevos)
    ensures forall x :: x in AddFacts(facts, nuevos) <==> x in facts || x in nuevos
    ensures Distinct(facts) ==> Distinct(AddFacts(facts, nuevos))
    ensures (forall x :: x in nuevos ==> x in facts) ==> AddFacts(facts, nuevos) == facts
    decreases |nuevos|
  {
    if nuevos != [] {
      var next := if nuevos[0] in facts then facts else facts + [nuevos[0]];
      AddFactsSpec(next, nuevos[1..]);
      assert nuevos == [nuevos[0]] + nuevos[1..];
      forall x ensures x in next <==> x in facts || x == nuevos[0] {
        if x == nuevos[0] && nuevos[0] !in facts { assert next[|facts|] == x; }
      }
    }
  }

  /** The user's `UserFact` rows, in insertion order. */
  class FactTable {
    var facts: seq<string>

    constructor ()
      ensures facts == []
    {
      facts := [];
    }

    /** Store the facts a reply reports as newly learnt. */
    method LearnFacts(nuevos: seq<string>)
      modifies this
      ensures facts == AddFacts(old(facts), nuevos)
    {
      var i := 0;
      while i < |nuevos|
        invariant 0 <= i <= |nuevos|
        invariant AddFacts(facts, nuevos[i..]) == AddFacts(old(facts), nuevos)
      {
        var dato := nuevos[i];
        if dato !in facts {
          facts := facts + [dato];
        }
        assert nuevos[i..][1..] == nuevos[i + 1..];
        i := i + 1;
      }
    }
  }
}
