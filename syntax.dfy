// The syntax practice screen: a table of Python keywords, each with a mastery
// percentage. Practising a keyword raises its mastery by 10, capped at 100,
// and awards 5 XP through the shared progression store.

module Syntax {
  import opened Progression

  /** Mastery a keyword reaches when it is fully learnt. */
  const MaxMastery: int := 100

  /** Mastery gained by one practice. */
  const MasteryStep: int := 10

  /** XP awarded by one practice. */
  const PracticeXp: nat := 5

  /** One tile of the table: the keyword and how well it is mastered. */
  datatype Keyword = Keyword(name: string, mastery: int)
  {
    /** The tile shows "Mastered" and refuses further practice. */
    predicate Completed()
    {
      mastery >= MaxMastery
    }

    /** The mastery is a percentage. */
    predicate InRange()
    {
      0 <= mastery <= MaxMastery
    }
  }

  function Min(a: int, b: int): int
  {
    if a <= b then a else b
  }

  /** Every keyword's mastery is a percentage. */
  predicate AllInRange(ks: seq<Keyword>)
  {
    forall k :: 0 <= k < |ks| ==> ks[k].InRange()
  }

  /** No keyword appears twice (the list keys its tiles by name). */
  predicate DistinctNames(ks: seq<Keyword>)
  {
    forall i, j :: 0 <= i < j < |ks| ==> ks[i].name != ks[j].name
  }

  /** The table the screen starts with. */
  function InitialKeywords(): (ks: seq<Keyword>)
    ensures |ks| == 9
    ensures DistinctNames(ks) && AllInRange(ks)
    ensures forall k :: 0 <= k < |ks| ==> !ks[k].Completed()
  {
    [ Keyword("def", 10), Keyword("print", 30), Keyword("int", 0),
      Keyword("str", 5), Keyword("if", 20), Keyword("else", 15),
      Keyword("for", 40), Keyword("while", 25), Keyword("return", 50) ]
  }

  /** The table after one practice of the keyword at index i. */
  function Practised(ks: seq<Keyword>, i: nat): (r: seq<Keyword>)
    requires i < |ks|
    ensures |r| == |ks|
    ensures r[i].name == ks[i].name
    ensures ks[i].mastery <= MaxMastery ==> ks[i].mastery <= r[i].mastery <= MaxMastery
    ensures r[i].mastery == ks[i].mastery + MasteryStep || r[i].mastery == MaxMastery
    ensures r[i].Completed() <==> ks[i].mastery + MasteryStep >= MaxMastery
    ensures forall k :: 0 <= k < |ks| && k != i ==> r[k] == ks[k]
  {
    ks[i := ks[i].(mastery := Min(ks[i].mastery + MasteryStep, MaxMastery))]
  }

  /** A practice keeps every mastery a percentage and every name distinct;
      no mastery goes down, and a completed keyword stays completed at 100. */
  lemma {:induction false} PractisedInvariant(ks: seq<Keyword>, i: nat)
    requires i < |ks| && AllInRange(ks)
    ensures AllInRange(Practised(ks, i))
    ensures DistinctNames(ks) ==> DistinctNames(Practised(ks, i))
    ensures forall k :: 0 <= k < |ks| ==> ks[k].mastery <= Practised(ks, i)[k].mastery
    ensures forall k :: 0 <= k < |ks| && ks[k].Completed() ==> Practised(ks, i)[k].Completed()
    ensures ks[i].Completed() ==> Practised(ks, i) == ks
  {
    var r := Practised(ks, i);
    forall k | 0 <= k < |ks|
      ensures r[k].InRange() && ks[k].mastery <= r[k].mastery
    {
    }
    if ks[i].Completed() {
      assert r[i] == ks[i];
    }
  }

  /** The table after n practices of the keyword at index i. */
  function PractisedTimes(ks: seq<Keyword>, i: nat, n: nat): (r: seq<Keyword>)
    requires i < |ks|
    ensures |r| == |ks|
    decreases n
  {
    if n == 0 then ks else PractisedTimes(Practised(ks, i), i, n - 1)
  }

  /** n practices raise the mastery by 10 each, stopping at 100, and touch
      no other tile. */
  lemma {:induction false} PractisedTimesMastery(ks: seq<Keyword>, i: nat, n: nat)
    requires i < |ks| && ks[i].mastery <= MaxMastery
    ensures PractisedTimes(ks, i, n)[i].mastery == Min(ks[i].mastery + MasteryStep * n, MaxMastery)
    ensures PractisedTimes(ks, i, n)[i].name == ks[i].name
    ensures forall k :: 0 <= k < |ks| && k != i ==> PractisedTimes(ks, i, n)[k] == ks[k]
    decreases n
  {
    if n > 0 {
      PractisedTimesMastery(Practised(ks, i), i, n - 1);
    }
  }

  /** Enough practices master any keyword: from mastery m, (100 - m + 9) / 10
      of them reach 100. */
  lemma {:induction false} PractiseToMastery(ks: seq<Keyword>, i: nat, n: nat)
    requires i < |ks| && ks[i].InRange()
    requires MasteryStep * n >= MaxMastery - ks[i].mastery
    ensures PractisedTimes(ks, i, n)[i].Completed()
    ensures PractisedTimes(ks, i, n)[i].mastery == MaxMastery
  {
    PractisedTimesMastery(ks, i, n);
  }

  /** The syntax screen: its keyword table and the store it awards XP to. */
  class SyntaxScreen {
    const keywords: array<Keyword>
    const store: ProgressStore

    ghost predicate Valid()
      reads this, keywords, store
    {
      store.Valid() && AllInRange(keywords[..]) && DistinctNames(keywords[..])
    }

    /** The screen as first shown, sharing the app's store. */
    constructor (store: ProgressStore)
      requires store.Valid()
      ensures Valid() && fresh(keywords)
      ensures keywords[..] == InitialKeywords() && this.store == store
    {
      this.store := store;
      var init := InitialKeywords();
      keywords := new Keyword[|init|] (k requires 0 <= k < |init| => init[k]);
    }

    /** Whether the tile at an index shows as mastered. */
    function IsCompleted(index: nat): (b: bool)
      requires index < keywords.Length
      reads this, keywords
      ensures b <==> keywords[index].mastery >= MaxMastery
    {
      keywords[index].Completed()
    }

    /** practiceKeyword: raise one keyword's mastery by 10 up to 100 and award
        5 XP, even when the keyword was already mastered. */
    method PracticeKeyword(index: nat)
      requires Valid() && index < keywords.Length
      modifies keywords, store
      ensures Valid()
      ensures keywords[..] == Practised(old(keywords[..]), index)
      ensures keywords[index].mastery == Min(old(keywords[index].mastery) + MasteryStep, MaxMastery)
      ensures forall k :: 0 <= k < keywords.Length ==> old(keywords[k].mastery) <= keywords[k].mastery
      ensures forall k :: 0 <= k < keywords.Length && k != index ==> keywords[k] == old(keywords[k])
      ensures IsCompleted(index) <==> old(keywords[index].mastery) + MasteryStep >= MaxMastery
      ensures forall k :: 0 <= k < keywords.Length && old(IsCompleted(k)) ==> IsCompleted(k)
      ensures store.State() == old(store.State()).AddXP(PracticeXp)
      ensures store.State().Total() == old(store.State()).Total() + PracticeXp
    {
      PractisedInvariant(keywords[..], index);
      var k := keywords[index];
      keywords[index] := k.(mastery := Min(k.mastery + MasteryStep, MaxMastery));
      store.AddXP(PracticeXp);
    }
  }

  /** The first keyword practised on a fresh screen and a fresh store. */
  method PracticeOnFreshScreen() returns (mastery: int, xp: nat, level: nat)
    ensures mastery == 20 && xp == PracticeXp && level == 1
  {
    var store := new ProgressStore();
    var screen := new SyntaxScreen(store);
    screen.PracticeKeyword(0);
    mastery, xp, level := screen.keywords[0].mastery, store.xp, store.level;
  }
}
