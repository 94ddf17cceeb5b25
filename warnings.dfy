/**
 * The duplicate-id scan run over the ingredient and recipe lists
 * (`detect_overlapping_ids`, `detect_warnings`). A warning is the pair the
 * source formats into its message: the duplicated id and the names of all
 * rows carrying it.
 */
module Warnings {
  import opened Records
  import Seqs

  datatype Warning = DuplicateId(id: int, names: seq<string>)

  /** `ids.count(id) > 1`: more than one name is listed for the id. */
  predicate Duplicated(source: seq<Entry>, id: int): (b: bool)
    ensures b <==> |NamesWithId(source, id)| > 1
  {
    multiset(IdsOf(source))[id] > 1
  }

  /** The position of the first row carrying `id`, or |source| when none does. */
  function FirstPos(source: seq<Entry>, id: int): (p: nat)
    ensures p <= |source|
    ensures p < |source| ==> source[p].id == id
    ensures forall j :: 0 <= j < p ==> source[j].id != id
    ensures (exists i :: 0 <= i < |source| && source[i].id == id) ==> p < |source|
  {
    match Seqs.FirstIndex(IdsOf(source), id, 0, |source|)
    case Some(p) => p
    case None => |source|
  }

  /**
   * What the scan promises of its result: every reported id occurs more
   * than once and carries the names of all its rows; every such id is
   * reported; and reports follow the order of first occurrence (so no id
   * is reported twice).
   */
  ghost predicate IsOverlapReport(source: seq<Entry>, w: seq<Warning>) {
    && (forall k :: 0 <= k < |w| ==>
          Duplicated(source, w[k].id) && w[k].names == NamesWithId(source, w[k].id))
    && (forall i :: 0 <= i < |source| && Duplicated(source, source[i].id) ==>
          exists k :: 0 <= k < |w| && w[k].id == source[i].id)
    && (forall a, b :: 0 <= a < b < |w| ==> FirstPos(source, w[a].id) < FirstPos(source, w[b].id))
  }

  /**
   * The state of the scan after it has visited the first `k` rows: what it
   * holds is reported correctly and in order, and every duplicated id met
   * so far is in it.
   */
  ghost predicate ScannedUpTo(source: seq<Entry>, w: seq<Warning>, k: nat) {
    && (forall j :: 0 <= j < |w| ==>
          Duplicated(source, w[j].id) && w[j].names == NamesWithId(source, w[j].id) &&
          FirstPos(source, w[j].id) < k)
    && (forall i :: 0 <= i < k && i < |source| && Duplicated(source, source[i].id) ==>
          exists j :: 0 <= j < |w| && w[j].id == source[i].id)
    && (forall a, b :: 0 <= a < b < |w| ==> FirstPos(source, w[a].id) < FirstPos(source, w[b].id))
  }

  /**
   * The warning the scan builds for row `k`: row `k`'s id, with a name list
   * that is never empty since row `k` itself carries the id.
   */
  function MessageAt(source: seq<Entry>, k: nat): (w: Warning)
    requires k < |source|
    ensures w.id == source[k].id && w.names != []
  {
    NamesWithIdNonEmpty(source, source[k].id);
    DuplicateId(source[k].id, NamesWithId(source, source[k].id))
  }

  /**
   * When row `k` carries an id met before, the scan already holds its
   * warning; so a duplicated id whose warning is new first occurs at `k`.
   */
  lemma ScanSeenBefore(source: seq<Entry>, w: seq<Warning>, k: nat)
    requires k < |source| && ScannedUpTo(source, w, k)
    requires Duplicated(source, source[k].id)
    ensures FirstPos(source, source[k].id) < k ==> MessageAt(source, k) in w
  {
    var p := FirstPos(source, source[k].id);
    if p < k {
      assert Duplicated(source, source[p].id);
      var j :| 0 <= j < |w| && w[j].id == source[p].id;
      assert w[j] == MessageAt(source, k);
    }
  }

  /** Appending a warning ranked after all the others keeps the order. */
  lemma AppendKeepsOrder(source: seq<Entry>, w: seq<Warning>, m: Warning, k: nat)
    requires forall a, b :: 0 <= a < b < |w| ==> FirstPos(source, w[a].id) < FirstPos(source, w[b].id)
    requires forall j :: 0 <= j < |w| ==> FirstPos(source, w[j].id) < k
    requires FirstPos(source, m.id) == k
    ensures forall a, b :: 0 <= a < b < |w + [m]| ==>
      FirstPos(source, (w + [m])[a].id) < FirstPos(source, (w + [m])[b].id)
  {
    var w' := w + [m];
    forall a, b | 0 <= a < b < |w'|
      ensures FirstPos(source, w'[a].id) < FirstPos(source, w'[b].id)
    {
      assert w'[a] == w[a];
      if b < |w| { assert w'[b] == w[b]; }
    }
  }

  /** Appending a correct warning ranked before `k + 1` keeps every warning correct. */
  lemma AppendKeepsCorrect(source: seq<Entry>, w: seq<Warning>, m: Warning, k: nat)
    requires forall j :: 0 <= j < |w| ==>
      Duplicated(source, w[j].id) && w[j].names == NamesWithId(source, w[j].id) && FirstPos(source, w[j].id) < k
    requires Duplicated(source, m.id) && m.names == NamesWithId(source, m.id) && FirstPos(source, m.id) == k
    ensures forall j :: 0 <= j < |w + [m]| ==>
      Duplicated(source, (w + [m])[j].id) && (w + [m])[j].names == NamesWithId(source, (w + [m])[j].id) &&
      FirstPos(source, (w + [m])[j].id) < k + 1
  {
    var w' := w + [m];
    forall j | 0 <= j < |w'|
      ensures Duplicated(source, w'[j].id) && w'[j].names == NamesWithId(source, w'[j].id) &&
              FirstPos(source, w'[j].id) < k + 1
    {
      if j < |w| { assert w'[j] == w[j]; } else { assert w'[j] == m; }
    }
  }

  /** Appending the warning for row `k` covers every duplicated id of the first `k + 1` rows. */
  lemma AppendKeepsComplete(source: seq<Entry>, w: seq<Warning>, k: nat)
    requires k < |source|
    requires forall i :: 0 <= i < k && i < |source| && Duplicated(source, source[i].id) ==>
      exists j :: 0 <= j < |w| && w[j].id == source[i].id
    ensures forall i :: 0 <= i < k + 1 && i < |source| && Duplicated(source, source[i].id) ==>
      exists j :: 0 <= j < |w + [MessageAt(source, k)]| && (w + [MessageAt(source, k)])[j].id == source[i].id
  {
    var w' := w + [MessageAt(source, k)];
    forall i | 0 <= i < k + 1 && i < |source| && Duplicated(source, source[i].id)
      ensures exists j :: 0 <= j < |w'| && w'[j].id == source[i].id
    {
      if i < k {
        var j :| 0 <= j < |w| && w[j].id == source[i].id;
        assert w'[j] == w[j];
      } else {
        assert w'[|w|].id == source[i].id;
      }
    }
  }

  /** The turn of the loop that appends a new warning keeps the scan's state correct. */
  lemma ScanStepAppend(source: seq<Entry>, w: seq<Warning>, k: nat)
    requires k < |source| && ScannedUpTo(source, w, k)
    requires Duplicated(source, source[k].id) && MessageAt(source, k) !in w
    ensures ScannedUpTo(source, w + [MessageAt(source, k)], k + 1)
  {
    var m := MessageAt(source, k);
    ScanSeenBefore(source, w, k);
    assert FirstPos(source, m.id) == k;
    AppendKeepsCorrect(source, w, m, k);
    AppendKeepsComplete(source, w, k);
    AppendKeepsOrder(source, w, m, k);
  }

  /** The turn of the loop that appends nothing keeps the scan's state correct. */
  lemma ScanStepKeep(source: seq<Entry>, w: seq<Warning>, k: nat)
    requires k < |source| && ScannedUpTo(source, w, k)
    requires Duplicated(source, source[k].id) ==> MessageAt(source, k) in w
    ensures ScannedUpTo(source, w, k + 1)
  {
    forall i | 0 <= i < k + 1 && i < |source| && Duplicated(source, source[i].id)
      ensures exists j :: 0 <= j < |w| && w[j].id == source[i].id
    {
      if i == k {
        var j :| 0 <= j < |w| && w[j] == MessageAt(source, k);
        assert w[j].id == source[i].id;
      }
    }
  }

  /** `detect_overlapping_ids(source)`. */
  method DetectOverlappingIds(source: seq<Entry>) returns (warnings: seq<Warning>)
    ensures IsOverlapReport(source, warnings)
  {
    warnings := [];
    var ids := IdsOf(source);
    for k := 0 to |ids|
      invariant ScannedUpTo(source, warnings, k)
    {
      var entryId := ids[k];
      if multiset(ids)[entryId] > 1 {
        var entries := NamesWithId(source, entryId);
        var message := DuplicateId(entryId, entries);
        assert message == MessageAt(source, k);
        if message !in warnings {
          ScanStepAppend(source, warnings, k);
          warnings := warnings + [message];
        } else {
          ScanStepKeep(source, warnings, k);
        }
      } else {
        ScanStepKeep(source, warnings, k);
      }
    }
  }

  /** `detect_warnings`: the ingredient warnings, then the recipe warnings. */
  method DetectWarnings(ingredients: seq<Entry>, recipes: seq<Recipe>) returns (warnings: seq<Warning>)
    ensures exists k :: 0 <= k <= |warnings| &&
                        IsOverlapReport(ingredients, warnings[..k]) &&
                        IsOverlapReport(Headers(recipes), warnings[k..])
  {
    var first := DetectOverlappingIds(ingredients);
    var second := DetectOverlappingIds(Headers(recipes));
    warnings := [];
    warnings := warnings + first;
    warnings := warnings + second;
    assert warnings[..|first|] == first && warnings[|first|..] == second;
  }

  /** A duplicated id occurs in the source. */
  lemma DuplicatedOccurs(source: seq<Entry>, id: int)
    requires Duplicated(source, id)
    ensures FirstPos(source, id) < |source|
  {
    assert id in IdsOf(source);
  }

  /** No id is reported twice. */
  lemma ReportedOnce(source: seq<Entry>, w: seq<Warning>)
    requires IsOverlapReport(source, w)
    ensures forall a, b :: 0 <= a < b < |w| ==> w[a].id != w[b].id
  {
  }

  /**
   * In a strictly ordered sequence nothing after the head ranks as low as
   * the head; so an element of `w1`'s tail is in `w2`'s tail when the two
   * share their head and `w2` holds everything `w1` does.
   */
  lemma TailMember<X>(w1: seq<X>, w2: seq<X>, rank: X -> int, x: X)
    requires forall a, b :: 0 <= a < b < |w1| ==> rank(w1[a]) < rank(w1[b])
    requires forall y :: y in w1 ==> y in w2
    requires w1 != [] && w2 != [] && w1[0] == w2[0]
    requires x in w1[1..]
    ensures x in w2[1..]
  {
    var i :| 0 <= i < |w1[1..]| && w1[1..][i] == x;
    assert w1[i + 1] == x;
    assert rank(w1[0]) < rank(x);
    assert x in w2;
    var j :| 0 <= j < |w2| && w2[j] == x;
    assert w2[1..][j - 1] == x;
  }

  /** Two strictly ordered sequences with the same elements start alike. */
  lemma OrderedHeadsEqual<X>(w1: seq<X>, w2: seq<X>, rank: X -> int)
    requires forall a, b :: 0 <= a < b < |w1| ==> rank(w1[a]) < rank(w1[b])
    requires forall a, b :: 0 <= a < b < |w2| ==> rank(w2[a]) < rank(w2[b])
    requires forall x :: x in w1 <==> x in w2
    requires w1 != []
    ensures w2 != [] && w1[0] == w2[0]
  {
    assert w1[0] in w1;
    assert w2[0] in w2;
    var a :| 0 <= a < |w1| && w1[a] == w2[0];
    var b :| 0 <= b < |w2| && w2[b] == w1[0];
    assert rank(w1[0]) <= rank(w1[a]) == rank(w2[0]);
    assert rank(w2[0]) <= rank(w2[b]) == rank(w1[0]);
    assert a == 0;
  }

  /** Strictly ordered sequences with the same elements and head have tails with the same elements. */
  lemma TailsSameMembers<X>(w1: seq<X>, w2: seq<X>, rank: X -> int)
    requires forall a, b :: 0 <= a < b < |w1| ==> rank(w1[a]) < rank(w1[b])
    requires forall a, b :: 0 <= a < b < |w2| ==> rank(w2[a]) < rank(w2[b])
    requires forall x :: x in w1 <==> x in w2
    requires w1 != [] && w2 != [] && w1[0] == w2[0]
    ensures forall x :: x in w1[1..] <==> x in w2[1..]
  {
    forall x ensures x in w1[1..] <==> x in w2[1..] {
      if x in w1[1..] { TailMember(w1, w2, rank, x); }
      if x in w2[1..] { TailMember(w2, w1, rank, x); }
    }
  }

  /** The tail of a strictly ordered sequence is strictly ordered. */
  lemma TailOrdered<X>(w: seq<X>, rank: X -> int)
    requires forall a, b :: 0 <= a < b < |w| ==> rank(w[a]) < rank(w[b])
    requires w != []
    ensures forall a, b :: 0 <= a < b < |w[1..]| ==> rank(w[1..][a]) < rank(w[1..][b])
  {
    forall a, b | 0 <= a < b < |w[1..]| ensures rank(w[1..][a]) < rank(w[1..][b]) {
      assert w[1..][a] == w[a + 1] && w[1..][b] == w[b + 1];
    }
  }

  /** Two sequences ordered strictly by the same rank and holding the same elements are equal. */
  lemma {:induction false} OrderedSameMembersEqual<X>(w1: seq<X>, w2: seq<X>, rank: X -> int)
    requires forall a, b :: 0 <= a < b < |w1| ==> rank(w1[a]) < rank(w1[b])
    requires forall a, b :: 0 <= a < b < |w2| ==> rank(w2[a]) < rank(w2[b])
    requires forall x :: x in w1 <==> x in w2
    ensures w1 == w2
    decreases |w1|
  {
    if w1 == [] {
      assert forall k :: 0 <= k < |w2| ==> w2[k] in w1;
    } else {
      OrderedHeadsEqual(w1, w2, rank);
      var t1, t2 := w1[1..], w2[1..];
      TailsSameMembers(w1, w2, rank);
      TailOrdered(w1, rank);
      TailOrdered(w2, rank);
      OrderedSameMembersEqual(t1, t2, rank);
      assert w1 == [w1[0]] + t1;
      assert w2 == [w2[0]] + t2;
    }
  }

  /** Every warning of one report of a source is in any other report of it. */
  lemma ReportedInEvery(source: seq<Entry>, w1: seq<Warning>, w2: seq<Warning>)
    requires IsOverlapReport(source, w1) && IsOverlapReport(source, w2)
    ensures forall x :: x in w1 ==> x in w2
  {
    forall x | x in w1 ensures x in w2 {
      var k :| 0 <= k < |w1| && w1[k] == x;
      var i := FirstPos(source, x.id);
      assert Duplicated(source, source[i].id);
      var j :| 0 <= j < |w2| && w2[j].id == source[i].id;
      assert w2[j] == x;
    }
  }

  /** The report is determined by the source: the scan is a function of its input. */
  lemma ReportIsUnique(source: seq<Entry>, w1: seq<Warning>, w2: seq<Warning>)
    requires IsOverlapReport(source, w1) && IsOverlapReport(source, w2)
    ensures w1 == w2
  {
    ReportedInEvery(source, w1, w2);
    ReportedInEvery(source, w2, w1);
    OrderedSameMembersEqual(w1, w2, (x: Warning) => FirstPos(source, x.id));
  }

  /** Distinct ids occur once each. */
  lemma {:induction false} DistinctIdsOccurOnce(ids: seq<int>, x: int)
    requires forall i, j :: 0 <= i < j < |ids| ==> ids[i] != ids[j]
    ensures multiset(ids)[x] <= 1
  {
    if ids != [] {
      var rest := ids[1..];
      assert ids == [ids[0]] + rest;
      DistinctIdsOccurOnce(rest, x);
      if ids[0] == x {
        assert forall j :: 0 <= j < |rest| ==> rest[j] == ids[j + 1] != ids[0];
      }
    }
  }

  /** A source whose ids are all distinct, the empty one included, yields no warning. */
  lemma DistinctIdsNoWarnings(source: seq<Entry>, w: seq<Warning>)
    requires forall i, j :: 0 <= i < j < |source| ==> source[i].id != source[j].id
    requires IsOverlapReport(source, w)
    ensures w == []
  {
    if w != [] {
      var ids := IdsOf(source);
      assert forall i, j :: 0 <= i < j < |ids| ==> ids[i] != ids[j];
      DistinctIdsOccurOnce(ids, w[0].id);
    }
  }
}
