/**
 * The two-buffer edit list `PList`: a committed buffer (`_original`) and a
 * working buffer (`_changed`). Every list operation acts on the working
 * buffer; `reset` throws the working edits away and `update` copies the
 * working buffer into the committed one, element by element.
 *
 * Elements are values, so the deep copies the source makes on construction,
 * on `reset` and in `original` have no observable effect here.
 */
module ProtectedList {
  import opened Wrappers
  import Seqs

  /** The exceptions Python's list operations raise. */
  datatype ListError = IndexError | ValueError | TypeError

  /** Success or a raised exception, for operations that return nothing. */
  datatype Status = Ok | Raised(error: ListError)

  /**
   * How `list.insert` and the bounds of `list.index` place an integer on a
   * list of length `n`: negative values count from the end, and values past
   * either end are clamped to it.
   */
  function ClampIndex(i: int, n: nat): (p: nat)
    ensures p <= n
    ensures 0 <= i <= n ==> p == i
    ensures i < 0 <= n + i ==> p == n + i
    ensures i > n ==> p == n
    ensures n + i < 0 ==> p == 0
  {
    if i < 0 then (if n + i < 0 then 0 else n + i)
    else if i > n then n
    else i
  }

  /** The sequence read back to front. */
  function Reversed<T>(s: seq<T>): (r: seq<T>)
    ensures |r| == |s|
    ensures forall i :: 0 <= i < |s| ==> r[i] == s[|s| - 1 - i]
  {
    seq(|s|, i requires 0 <= i < |s| => s[|s| - 1 - i])
  }

  lemma ReversedInvolution<T>(s: seq<T>)
    ensures Reversed(Reversed(s)) == s
  {
  }

  /**
   * The committed buffer `update` leaves behind, given the committed buffer
   * `o` and the working buffer `c` before the call: the first |c| entries
   * are those of `c`, and when `c` is the shorter one the entries of `o`
   * past |c| are kept (the truncation in the source never fires).
   */
  function Committed<T>(o: seq<T>, c: seq<T>): (r: seq<T>)
    ensures |r| == if |c| < |o| then |o| else |c|
    ensures forall i :: 0 <= i < |c| ==> r[i] == c[i]
    ensures forall i :: |c| <= i < |o| ==> r[i] == o[i]
  {
    if |c| < |o| then c + o[|c|..] else c
  }

  /** When the working buffer is at least as long, `update` makes the buffers equal. */
  lemma CommittedEqualsWorking<T>(o: seq<T>, c: seq<T>)
    requires |c| >= |o|
    ensures Committed(o, c) == c
  {
  }

  /**
   * When the working buffer is shorter, `update` does not make the buffers
   * equal: the committed buffer keeps its length and its tail, so a
   * following `reset` lengthens the working buffer back.
   */
  lemma CommittedAfterShrinkKeepsTail<T>(o: seq<T>, c: seq<T>)
    requires |c| < |o|
    ensures |Committed(o, c)| == |o|
    ensures Committed(o, c)[..|c|] == c
    ensures Committed(o, c)[|c|..] == o[|c|..]
    ensures Committed(o, c) != c
  {
  }

  /** A second `update` with no edit in between leaves the committed buffer as it was. */
  lemma CommittedIdempotent<T>(o: seq<T>, c: seq<T>)
    ensures Committed(Committed(o, c), c) == Committed(o, c)
  {
  }

  class PList<T(==)> {
    /** `_original`: the last committed contents. */
    var original: seq<T>
    /** `_changed`: the working contents every list operation acts on. */
    var changed: seq<T>

    /** `PList(initial_list)`; with no argument both buffers start empty. */
    constructor (initial: seq<T> := [])
      ensures original == initial && changed == initial
    {
      original := initial;
      changed := initial;
    }

    /** `self[index]`. */
    method GetItem(index: int) returns (r: Result<T, ListError>)
      ensures r.Success? <==> 0 <= |changed| + index && index < |changed|
      ensures r.Success? ==> r.value == changed[Seqs.NormalizeIndex(index, |changed|).value]
      ensures r.Failure? ==> r.error == IndexError
    {
      var k := Seqs.NormalizeIndex(index, |changed|);
      if k.None? {
        return Failure(IndexError);
      }
      r := Success(changed[k.value]);
    }

    /** `self[index] = value`. */
    method SetItem(index: int, value: T) returns (status: Status)
      modifies this
      ensures original == old(original)
      ensures status == Ok <==> 0 <= |old(changed)| + index && index < |old(changed)|
      ensures status == Ok ==>
        changed == old(changed)[Seqs.NormalizeIndex(index, |old(changed)|).value := value]
      ensures status != Ok ==> status == Raised(IndexError) && changed == old(changed)
    {
      var k := Seqs.NormalizeIndex(index, |changed|);
      if k.None? {
        return Raised(IndexError);
      }
      changed := changed[k.value := value];
      status := Ok;
    }

    /** `del self[index]`. */
    method DelItem(index: int) returns (status: Status)
      modifies this
      ensures original == old(original)
      ensures status == Ok <==> 0 <= |old(changed)| + index && index < |old(changed)|
      ensures status == Ok ==>
        var k := Seqs.NormalizeIndex(index, |old(changed)|).value;
        changed == old(changed)[..k] + old(changed)[k + 1..]
      ensures status != Ok ==> status == Raised(IndexError) && changed == old(changed)
    {
      var k := Seqs.NormalizeIndex(index, |changed|);
      if k.None? {
        return Raised(IndexError);
      }
      changed := changed[..k.value] + changed[k.value + 1..];
      status := Ok;
    }

    /** `len(self)`. */
    method Length() returns (n: nat)
      ensures n == |changed|
    {
      n := |changed|;
    }

    /** `item in self`. */
    method Contains(item: T) returns (b: bool)
      ensures b <==> item in changed
    {
      b := item in changed;
    }

    method Append(value: T)
      modifies this
      ensures original == old(original)
      ensures changed == old(changed) + [value]
    {
      changed := changed + [value];
    }

    method Extend(values: seq<T>)
      modifies this
      ensures original == old(original)
      ensures changed == old(changed) + values
    {
      changed := changed + values;
    }

    /**
     * `pop(index=-1)`. The source discards the removed element, so only the
     * outcome is returned; an empty list or a bad index raises `IndexError`.
     */
    method Pop(index: int := -1) returns (status: Status)
      modifies this
      ensures original == old(original)
      ensures status == Ok <==> 0 <= |old(changed)| + index && index < |old(changed)|
      ensures status == Ok ==>
        var k := Seqs.NormalizeIndex(index, |old(changed)|).value;
        changed == old(changed)[..k] + old(changed)[k + 1..]
      ensures status != Ok ==> status == Raised(IndexError) && changed == old(changed)
    {
      var k := Seqs.NormalizeIndex(index, |changed|);
      if k.None? {
        return Raised(IndexError);
      }
      changed := changed[..k.value] + changed[k.value + 1..];
      status := Ok;
    }

    /** `remove(value)`: deletes the first equal element; `ValueError` when there is none. */
    method Remove(value: T) returns (status: Status)
      modifies this
      ensures original == old(original)
      ensures status == Ok <==> value in old(changed)
      ensures status == Ok ==>
        exists k :: 0 <= k < |old(changed)| && old(changed)[k] == value &&
          (forall j :: 0 <= j < k ==> old(changed)[j] != value) &&
          changed == old(changed)[..k] + old(changed)[k + 1..]
      ensures status != Ok ==> status == Raised(ValueError) && changed == old(changed)
    {
      Seqs.FirstIndexFindsMember(changed, value);
      var k := Seqs.FirstIndex(changed, value, 0, |changed|);
      if k.None? {
        return Raised(ValueError);
      }
      changed := changed[..k.value] + changed[k.value + 1..];
      status := Ok;
    }

    /** `insert(index, value)`: never fails; the position is clamped to the list. */
    method Insert(index: int, value: T)
      modifies this
      ensures original == old(original)
      ensures
        var p := ClampIndex(index, |old(changed)|);
        changed == old(changed)[..p] + [value] + old(changed)[p..]
    {
      var p := ClampIndex(index, |changed|);
      changed := changed[..p] + [value] + changed[p..];
    }

    method Clear()
      modifies this
      ensures original == old(original)
      ensures changed == []
    {
      changed := [];
    }

    /** `copy()`: a shallow copy of the working contents. */
    method Copy() returns (s: seq<T>)
      ensures s == changed
    {
      s := changed;
    }

    /** `count(value)`: the number of working elements equal to `value`. */
    method Count(value: T) returns (n: nat)
      ensures n == multiset(changed)[value]
    {
      n := multiset(changed)[value];
    }

    /**
     * `index(value, start=0, stop=None)` as written: `stop` goes to
     * `list.index` unchanged, and `list.index` accepts only integer bounds,
     * so the default `None` raises `TypeError`. With an integer `stop` the
     * result is the first position of `value` between the clamped bounds,
     * or `ValueError`.
     */
    method Index(value: T, start: int := 0, stop: Option<int> := None) returns (r: Result<nat, ListError>)
      ensures stop.None? ==> r == Failure(TypeError)
      ensures stop.Some? ==>
        var lo := ClampIndex(start, |changed|);
        var hi := ClampIndex(stop.value, |changed|);
        && (r.Success? <==> exists j :: lo <= j < hi && changed[j] == value)
        && (r.Success? ==> lo <= r.value < hi && changed[r.value] == value &&
                           forall j :: lo <= j < r.value ==> changed[j] != value)
        && (r.Failure? ==> r.error == ValueError)
    {
      if stop.None? {
        return Failure(TypeError);
      }
      r := IndexToEnd(value, start, stop);
    }

    /**
     * `index` as its default evidently intends: a missing `stop` searches
     * to the end of the working buffer, as `Sequence.index` does.
     */
    method IndexToEnd(value: T, start: int := 0, stop: Option<int> := None) returns (r: Result<nat, ListError>)
      ensures
        var lo := ClampIndex(start, |changed|);
        var hi := if stop.None? then |changed| else ClampIndex(stop.value, |changed|);
        && (r.Success? <==> exists j :: lo <= j < hi && changed[j] == value)
        && (r.Success? ==> lo <= r.value < hi && changed[r.value] == value &&
                           forall j :: lo <= j < r.value ==> changed[j] != value)
        && (r.Failure? ==> r.error == ValueError)
    {
      var lo := ClampIndex(start, |changed|);
      var hi := if stop.None? then |changed| else ClampIndex(stop.value, |changed|);
      var k := Seqs.FirstIndex(changed, value, lo, hi);
      if k.None? {
        return Failure(ValueError);
      }
      r := Success(k.value);
    }

    method Reverse()
      modifies this
      ensures original == old(original)
      ensures changed == Reversed(old(changed))
    {
      changed := Reversed(changed);
    }

    /** `reset()`: discards the working edits. */
    method Reset()
      modifies this
      ensures original == old(original)
      ensures changed == original
    {
      changed := original;
    }

    /**
     * The inner `while` of `update`'s shrink branch: pops the working buffer
     * while it is longer than the committed one.
     */
    method TrimChanged()
      modifies this
      ensures original == old(original)
      ensures changed == if |old(changed)| > |original| then old(changed)[..|original|] else old(changed)
    {
      while |changed| > |original|
        invariant original == old(original)
        invariant |changed| >= |original| ==> changed == old(changed)[..|changed|]
        invariant |old(changed)| <= |original| ==> changed == old(changed)
        invariant |old(changed)| > |original| ==> |original| <= |changed| <= |old(changed)|
        decreases |changed|
      {
        changed := changed[..|changed| - 1];
      }
    }

    /**
     * `update()`: copies the working buffer into the committed one in place,
     * in one of three loops chosen by comparing the lengths.
     */
    method Update()
      modifies this
      ensures changed == old(changed)
      ensures original == Committed(old(original), old(changed))
    {
      if |changed| < |original| {
        var index := 0;
        while index < |original|
          invariant 0 <= index <= |original| == |old(original)|
          invariant changed == old(changed)
          invariant forall k :: 0 <= k < index && k < |changed| ==> original[k] == changed[k]
          invariant forall k :: 0 <= k < |original| && !(k < index && k < |changed|) ==>
            original[k] == old(original)[k]
        {
          if index >= |changed| {
            TrimChanged();
          } else {
            original := original[index := changed[index]];
          }
          index := index + 1;
        }
      } else if |changed| > |original| {
        var index := 0;
        while index < |changed|
          invariant 0 <= index <= |changed|
          invariant changed == old(changed)
          invariant |original| == if index < |old(original)| then |old(original)| else index
          invariant forall k :: 0 <= k < index ==> original[k] == changed[k]
          invariant forall k :: index <= k < |original| ==> original[k] == old(original)[k]
        {
          if index >= |original| {
            original := original + [changed[index]];
          } else {
            original := original[index := changed[index]];
          }
          index := index + 1;
        }
      } else {
        var index := 0;
        while index < |changed|
          invariant 0 <= index <= |changed| == |original|
          invariant changed == old(changed)
          invariant forall k :: 0 <= k < index ==> original[k] == changed[k]
          invariant forall k :: index <= k < |original| ==> original[k] == old(original)[k]
        {
          original := original[index := changed[index]];
          index := index + 1;
        }
      }
    }

    /**
     * `update()` as its shrink branch evidently intends: the committed
     * buffer takes the working positions and is then popped down to the
     * working length, so afterwards both buffers hold the same contents.
     * The other two branches are those of `Update`.
     */
    method UpdateTruncating()
      modifies this
      ensures changed == old(changed)
      ensures original == old(changed)
    {
      if |changed| < |original| {
        var index := 0;
        while index < |changed|
          invariant 0 <= index <= |changed| < |original| == |old(original)|
          invariant changed == old(changed)
          invariant forall k :: 0 <= k < index ==> original[k] == changed[k]
        {
          original := original[index := changed[index]];
          index := index + 1;
        }
        while |original| > |changed|
          invariant |original| >= |changed| && changed == old(changed)
          invariant forall k :: 0 <= k < |changed| ==> original[k] == changed[k]
          decreases |original|
        {
          original := original[..|original| - 1];
        }
      } else {
        Update();
        CommittedEqualsWorking(old(original), old(changed));
      }
    }

    /** The `original` property: the committed contents, unmodified. */
    method Original() returns (s: seq<T>)
      ensures s == original
    {
      s := original;
    }
  }

  /**
   * The session of protected_example.py up to its `reset`: edits stay in the
   * working buffer until `update`, and `reset` discards later edits.
   */
  method ExampleSession() returns (working: seq<int>, committed: seq<int>)
    ensures working == [1, 5, 3, 4, 6, 7] && committed == [1, 5, 3, 4, 6, 7]
  {
    var list := new PList([1, 2, 3]);
    var s := list.SetItem(1, 5);
    list.Append(4);
    list.Extend([6, 7]);
    assert list.changed == [1, 5, 3, 4, 6, 7] && list.original == [1, 2, 3];
    list.Update();
    assert list.original == [1, 5, 3, 4, 6, 7];
    list.Append(8);
    s := list.SetItem(2, 9);
    assert list.changed == [1, 5, 9, 4, 6, 7, 8];
    list.Reset();
    working := list.changed;
    committed := list.Original();
  }

  /**
   * Failing calls leave the working buffer as it was: a subscript past the
   * end raises `IndexError`, removing an absent value raises `ValueError`.
   */
  method ErrorSession() returns (got: Result<int, ListError>, removed: Status, working: seq<int>)
    ensures got == Failure(IndexError) && removed == Raised(ValueError)
    ensures working == [1, 2, 3]
  {
    var list := new PList([1, 2, 3]);
    got := list.GetItem(5);
    removed := list.Remove(99);
    working := list.changed;
  }

  /**
   * Shrinking then committing: `update` keeps the committed tail, so a
   * following `reset` brings the removed element back.
   */
  method ShrinkSession() returns (committed: seq<int>, restored: seq<int>)
    ensures committed == [2, 2, 3] && restored == [2, 2, 3]
  {
    var list := new PList([1, 2, 3]);
    var s := list.Pop();
    s := list.SetItem(0, 2);
    assert list.changed == [2, 2];
    list.Update();
    committed := list.Original();
    list.Reset();
    restored := list.changed;
  }

  /**
   * The same shrinking session with the intended update: the committed
   * buffer loses the popped element, and `reset` keeps the edit.
   */
  method ShrinkSessionTruncating() returns (committed: seq<int>, restored: seq<int>)
    ensures committed == [2, 2] && restored == [2, 2]
  {
    var list := new PList([1, 2, 3]);
    var s := list.Pop();
    s := list.SetItem(0, 2);
    list.UpdateTruncating();
    committed := list.Original();
    list.Reset();
    restored := list.changed;
  }

  /**
   * Looking up a present value: with the default `stop` the call raises
   * `TypeError`; with an integer `stop`, or with the intended default,
   * it finds the value's position.
   */
  method IndexSession() returns (bare: Result<nat, ListError>, bounded: Result<nat, ListError>,
                                 intended: Result<nat, ListError>)
    ensures bare == Failure(TypeError)
    ensures bounded == Success(1) && intended == Success(1)
  {
    var list := new PList([1, 2, 3]);
    assert list.changed[0] != 2 && list.changed[1] == 2;
    bare := list.Index(2);
    bounded := list.Index(2, 0, Some(3));
    intended := list.IndexToEnd(2);
  }
}
