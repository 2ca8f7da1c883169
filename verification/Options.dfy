/** The option list of a message: a slice kept in ascending order of option number and
    edited in place. Options with the same number keep the order they were added in. */
module Options {
  import opened Base

  datatype Opt = Opt(id: int, value: seq<byte>)

  ghost predicate Sorted(s: seq<Opt>) {
    forall i, j :: 0 <= i < j < |s| ==> s[i].id <= s[j].id
  }

  /** How an option number compares with the one looked for. */
  datatype Rel = Lt | Eq | Gt | Ne {
    predicate Holds(a: int, b: int) {
      match this case Lt => a < b case Eq => a == b case Gt => a > b case Ne => a != b
    }
  }

  /** The reference list operation: the options that compare as asked, in their order. */
  function Keep(s: seq<Opt>, rel: Rel, id: int): (r: seq<Opt>) {
    if s == [] then [] else (if rel.Holds(s[0].id, id) then [s[0]] else []) + Keep(s[1..], rel, id)
  }

  lemma {:induction false} KeepConcat(a: seq<Opt>, b: seq<Opt>, rel: Rel, id: int)
    ensures Keep(a + b, rel, id) == Keep(a, rel, id) + Keep(b, rel, id)
    decreases |a|
  {
    if a == [] {
      assert a + b == b;
    } else {
      var first := if rel.Holds(a[0].id, id) then [a[0]] else [];
      KeepConcat(a[1..], b, rel, id);
      assert (a + b)[1..] == a[1..] + b;
      assert Keep(a + b, rel, id) == first + (Keep(a[1..], rel, id) + Keep(b, rel, id));
    }
  }

  lemma {:induction false} KeepUniform(s: seq<Opt>, rel: Rel, id: int, all: bool)
    requires forall i :: 0 <= i < |s| ==> rel.Holds(s[i].id, id) == all
    ensures Keep(s, rel, id) == if all then s else []
    decreases |s|
  {
    if s != [] {
      KeepUniform(s[1..], rel, id, all);
    }
  }

  /** `lo` counts the options below `id`; `hi` counts those up to and including it. */
  ghost predicate Splits(s: seq<Opt>, id: int, lo: int, hi: int) {
    && 0 <= lo <= hi <= |s|
    && (forall i :: 0 <= i < lo ==> s[i].id < id)
    && (forall i :: lo <= i < hi ==> s[i].id == id)
    && (forall i :: hi <= i < |s| ==> s[i].id > id)
  }

  /** A list is its three stretches. */
  lemma Cut(s: seq<Opt>, lo: int, hi: int)
    requires 0 <= lo <= hi <= |s|
    ensures s == s[..lo] + s[lo..hi] + s[hi..]
  {
  }

  /** On a sorted list a filter keeps whole stretches of the three the search finds. */
  lemma FilterKeepsStretches(s: seq<Opt>, id: int, lo: int, hi: int, rel: Rel)
    requires Splits(s, id, lo, hi)
    ensures 0 <= lo <= hi <= |s|
    ensures Keep(s, rel, id) == (if rel.Lt? || rel.Ne? then s[..lo] else []) + (if rel.Eq? then s[lo..hi] else [])
                                + (if rel.Gt? || rel.Ne? then s[hi..] else [])
  {
    hide Keep, Splits;
    SplitBounds(s, id, lo, hi);
    Cut(s, lo, hi);
    KeepThree(s[..lo], s[lo..hi], s[hi..], rel, id);
    KeepUniform(s[..lo], rel, id, rel.Lt? || rel.Ne?);
    KeepUniform(s[lo..hi], rel, id, rel.Eq?);
    KeepUniform(s[hi..], rel, id, rel.Gt? || rel.Ne?);
  }

  lemma Lone<T>(s: seq<T>)
    ensures s + [] + [] == s && [] + s + [] == s && [] + [] + s == s
  {
  }

  /** On a sorted list the filters are the stretches the search finds. */
  lemma FiltersAreStretches(s: seq<Opt>, id: int, lo: int, hi: int)
    requires Splits(s, id, lo, hi)
    ensures Keep(s, Lt, id) == s[..lo]
    ensures Keep(s, Eq, id) == s[lo..hi]
    ensures Keep(s, Gt, id) == s[hi..]
    ensures Keep(s, Ne, id) == s[..lo] + s[hi..]
  {
    hide Keep, Splits;
    FilterKeepsStretches(s, id, lo, hi, Lt);
    Lone(s[..lo]);
    FilterKeepsStretches(s, id, lo, hi, Eq);
    Lone(s[lo..hi]);
    FilterKeepsStretches(s, id, lo, hi, Gt);
    Lone(s[hi..]);
    FilterKeepsStretches(s, id, lo, hi, Ne);
    Lone(s[..lo]);
    assert s[..lo] + [] == s[..lo];
  }

  lemma SplitBounds(s: seq<Opt>, id: int, lo: int, hi: int)
    requires Splits(s, id, lo, hi)
    ensures 0 <= lo <= hi <= |s|
    ensures forall i :: 0 <= i < |s[..lo]| ==> s[..lo][i].id < id
    ensures forall i :: 0 <= i < |s[lo..hi]| ==> s[lo..hi][i].id == id
    ensures forall i :: 0 <= i < |s[hi..]| ==> s[hi..][i].id > id
  {
  }

  lemma KeepThree(a: seq<Opt>, b: seq<Opt>, c: seq<Opt>, rel: Rel, id: int)
    ensures Keep(a + b + c, rel, id) == Keep(a, rel, id) + Keep(b, rel, id) + Keep(c, rel, id)
  {
    hide Keep;
    KeepConcat(a + b, c, rel, id);
    KeepConcat(a, b, rel, id);
  }

  lemma StretchesKeepOrder(s: seq<Opt>, id: int, lo: int, hi: int, middle: seq<Opt>)
    requires Splits(s, id, lo, hi) && Sorted(s)
    requires forall i :: 0 <= i < |middle| ==> middle[i].id == id
    ensures Sorted(s[..lo] + middle + s[hi..])
  {
  }

  /** Filter and replace. */
  function Replaced(s: seq<Opt>, opt: Opt): (r: seq<Opt>) {
    Keep(s, Lt, opt.id) + [opt] + Keep(s, Gt, opt.id)
  }

  /** Stable insertion. */
  function Inserted(s: seq<Opt>, opt: Opt): (r: seq<Opt>) {
    Keep(s, Lt, opt.id) + Keep(s, Eq, opt.id) + [opt] + Keep(s, Gt, opt.id)
  }

  datatype FindError = OptionNotFound

  lemma Slices<T>(d: seq<T>, was: seq<T>, at: nat, from: nat, len: nat)
    requires at <= from <= len == |was| && len <= |d| && d[..len] == was
    ensures d[..at] == was[..at] && d[from..len] == was[from..]
  {
  }

  lemma Shorter<T>(a: seq<T>, b: seq<T>, n: nat)
    requires a == b && n <= |a|
    ensures a[..n] == b[..n]
  {
  }

  lemma Placed<T>(s: seq<T>, at: nat, x: T, end: nat)
    requires at < end <= |s|
    ensures s[at := x][..end] == s[..at] + [x] + s[at + 1..end]
  {
  }

  /** The elements from `from` to `i` moved down to `to`, those behind as they were. */
  ghost function ShiftedDown<T>(s: seq<T>, to: nat, from: nat, i: nat): (r: seq<T>)
    requires to <= from <= i <= |s|
    ensures |r| == |s|
  {
    s[..to] + s[from..i] + s[to + i - from..]
  }

  lemma NothingShifted<T>(s: seq<T>, to: nat, from: nat)
    requires to <= from <= |s|
    ensures ShiftedDown(s, to, from, from) == s
  {
  }

  lemma OneShifted<T>(s: seq<T>, to: nat, from: nat, i: nat)
    requires to <= from <= i < |s|
    ensures ShiftedDown(s, to, from, i)[i] == s[i]
    ensures ShiftedDown(s, to, from, i)[to + i - from := s[i]] == ShiftedDown(s, to, from, i + 1)
  {
    assert s[from..i + 1] == s[from..i] + [s[i]];
  }

  lemma ShiftedParts<T>(s: seq<T>, to: nat, from: nat, i: nat)
    requires to <= from <= i <= |s|
    ensures ShiftedDown(s, to, from, i)[..to] == s[..to]
    ensures ShiftedDown(s, to, from, i)[to..to + i - from] == s[from..i]
  {
  }

  /** A Go slice of options: the first `len` elements of `data`, whose length is the capacity. */
  class OptionSlice {
    var data: array<Opt>
    var len: nat

    ghost predicate Valid()
      reads this
    {
      len <= data.Length
    }

    ghost function Contents(): (s: seq<Opt>)
      requires Valid()
      reads this, data
    {
      data[..len]
    }

    constructor (capacity: nat)
      ensures Valid() && Contents() == [] && fresh(data) && data.Length == capacity
    {
      data := new Opt[capacity](_ => Opt(0, []));
      len := 0;
    }

    /** Terminates on every slice, sorted or not. On a sorted one it returns the last index
        below `id` and the first above it; -1 stands for none, except that an empty slice
        has (-1, 0). */
    method FindPosition(id: int) returns (minIdx: int, maxIdx: int)
      requires Valid()
      ensures -1 <= minIdx < len && -1 <= maxIdx <= len
      ensures len == 0 ==> minIdx == -1 && maxIdx == 0
      ensures len > 0 && Sorted(Contents()) ==>
                && maxIdx < len
                && Splits(Contents(), id, minIdx + 1, if maxIdx == -1 then len else maxIdx)
    {
      if len == 0 {
        return -1, 0;
      }
      var pivot := 0;
      maxIdx := len;
      minIdx := 0;
      ghost var s := Contents();
      while !(id == data[pivot].id || (maxIdx - minIdx) / 2 == 0)
        invariant 0 <= minIdx <= pivot <= maxIdx <= len && pivot < len
        invariant maxIdx - minIdx >= 2 && pivot > 0 ==> minIdx < pivot < maxIdx
        invariant pivot == 0 ==> minIdx == 0 && (maxIdx == len || maxIdx == 0)
        invariant pivot == 0 && maxIdx == 0 ==> id < s[0].id
        invariant pivot > 0 ==> s[minIdx].id < id
        invariant maxIdx < len ==> id < s[maxIdx].id
        decreases maxIdx - minIdx, if pivot == 0 then 1 else 0
      {
        if id < data[pivot].id {
          maxIdx := pivot;
          pivot := maxIdx - (maxIdx - minIdx) / 2;
        } else {
          minIdx := pivot;
          pivot := minIdx + (maxIdx - minIdx) / 2;
        }
      }
      minIdx, maxIdx := ScanFrom(id, pivot);
    }

    /** The two linear scans that widen the pivot to the whole stretch of equal numbers. */
    method ScanFrom(id: int, pivot: nat) returns (minIdx: int, maxIdx: int)
      requires Valid() && pivot < len
      requires Sorted(Contents()) ==> NextTo(Contents(), id, pivot)
      ensures -1 <= minIdx < len && -1 <= maxIdx < len
      ensures Sorted(Contents()) ==> Splits(Contents(), id, minIdx + 1, if maxIdx == -1 then len else maxIdx)
    {
      maxIdx := pivot;
      while maxIdx < len && data[maxIdx].id <= id
        invariant pivot <= maxIdx <= len
        invariant forall i :: pivot <= i < maxIdx ==> data[i].id <= id
      {
        maxIdx := maxIdx + 1;
      }
      minIdx := pivot;
      while minIdx >= 0 && data[minIdx].id >= id
        invariant -1 <= minIdx <= pivot
        invariant forall i :: minIdx < i <= pivot ==> data[i].id >= id
      {
        minIdx := minIdx - 1;
      }
      if Sorted(Contents()) {
        ScansSplit(Contents(), id, pivot, minIdx, maxIdx);
      }
      if maxIdx == len {
        maxIdx := -1;
      }
    }

    /** On a sorted slice the scans stop at the ends of the stretch. */
    static lemma ScansSplit(s: seq<Opt>, id: int, pivot: int, minIdx: int, maxIdx: int)
      requires Sorted(s) && NextTo(s, id, pivot)
      requires -1 <= minIdx <= pivot <= maxIdx <= |s|
      requires forall i :: pivot <= i < maxIdx ==> s[i].id <= id
      requires forall i :: minIdx < i <= pivot ==> s[i].id >= id
      requires maxIdx < |s| ==> s[maxIdx].id > id
      requires minIdx >= 0 ==> s[minIdx].id < id
      ensures Splits(s, id, minIdx + 1, maxIdx)
    {
    }

    /** The pivot borders the stretch of options numbered `id`. */
    static ghost predicate NextTo(s: seq<Opt>, id: int, pivot: int) {
      && 0 <= pivot < |s|
      && (s[pivot].id > id && pivot > 0 ==> s[pivot - 1].id <= id)
      && (s[pivot].id < id && pivot + 1 < |s| ==> s[pivot + 1].id >= id)
    }

    /** The half-open index range of the options numbered `id`. */
    method Find(id: int) returns (r: Result<(int, int), FindError>)
      requires Valid() && Sorted(Contents())
      ensures r.Ok? <==> exists i :: 0 <= i < len && data[i].id == id
      ensures r.Ok? ==> r.value.0 < r.value.1 && Splits(Contents(), id, r.value.0, r.value.1)
    {
      var idxPre, idxPost := FindPosition(id);
      ghost var s := Contents();
      if idxPre == -1 && idxPost == 0 {
        return Err(OptionNotFound);
      }
      if idxPre == len - 1 && idxPost == -1 {
        return Err(OptionNotFound);
      }
      if idxPre < idxPost && idxPost - idxPre == 1 {
        return Err(OptionNotFound);
      }
      idxPre := idxPre + 1;
      if idxPost < 0 {
        idxPost := len;
      }
      assert s[idxPre].id == id;
      return Ok((idxPre, idxPost));
    }

    /** One more element, whatever it holds; a full slice moves to a larger array. */
    method Extend()
      requires Valid()
      modifies this
      ensures Valid() && len == old(len) + 1
      ensures data == old(data) || fresh(data)
      ensures data[..old(len)] == old(data[..len])
    {
      if len == data.Length {
        var bigger := new Opt[2 * len + 1](_ => Opt(0, []));
        forall i | 0 <= i < len {
          bigger[i] := data[i];
        }
        data := bigger;
      }
      len := len + 1;
    }

    /** Moves the elements from `from` up one place to the right, last one first. */
    method ShiftRight(from: nat)
      requires Valid() && from < len
      modifies data
      ensures data[..from] == old(data[..from])
      ensures data[from + 1..len] == old(data[from..len - 1])
    {
      var i := len - 1;
      while i > from
        invariant from <= i < len
        invariant data[..i] == old(data[..i])
        invariant data[i + 1..len] == old(data[i..len - 1])
      {
        data[i] := data[i - 1];
        i := i - 1;
      }
    }

    /** Moves the elements in [from, upto) down to `to`; returns the end of the moved run. */
    method ShiftLeft(to: nat, from: nat, upto: nat) returns (updateIdx: nat)
      requires Valid() && to <= from <= upto <= len
      modifies data
      ensures updateIdx == to + upto - from
      ensures data[..to] == old(data[..to])
      ensures data[to..updateIdx] == old(data[from..upto])
    {
      hide ShiftedDown;
      ghost var was := data[..];
      updateIdx := to;
      var i := from;
      NothingShifted(was, to, from);
      while i < upto
        invariant from <= i <= upto && updateIdx == to + i - from
        invariant data[..] == ShiftedDown(was, to, from, i)
      {
        OneShifted(was, to, from, i);
        assert data[i] == data[..][i];
        data[updateIdx] := data[i];
        updateIdx := updateIdx + 1;
        i := i + 1;
      }
      ShiftedParts(was, to, from, upto);
      assert data[..to] == data[..][..to] && data[to..updateIdx] == data[..][to..updateIdx];
    }

    /** The in-place half of Set: the stretch between the two positions becomes `opt`. */
    method PutBetween(idxPre: int, idxPost: int, opt: Opt)
      requires Valid() && -1 <= idxPre < len && -1 <= idxPost <= len
      requires idxPost != -1 ==> idxPre < idxPost
      requires len == 0 ==> idxPost == 0
      modifies this, data
      ensures Valid() && (data == old(data) || fresh(data))
      ensures Contents() == old(Contents())[..idxPre + 1] + [opt] + old(Contents())[if idxPost == -1 then old(len) else idxPost..]
    {
      if idxPre == -1 && idxPost == -1 {
        data[0] := opt;
        len := 1;
        return;
      }
      var insertPosition, updateTo, updateFrom := 0, 1, idxPost;
      if idxPre >= 0 {
        insertPosition, updateTo := idxPre + 1, idxPre + 2;
        if updateFrom < 0 {
          updateFrom := len;
        }
        if updateTo == updateFrom {
          data[insertPosition] := opt;
          return;
        }
      }
      Displace(insertPosition, updateTo, updateFrom, opt);
    }

    /** Puts `opt` at `insertPosition` with the elements from `updateFrom` on behind it. */
    method Displace(insertPosition: nat, updateTo: nat, updateFrom: nat, opt: Opt)
      requires Valid() && updateTo == insertPosition + 1 && insertPosition <= updateFrom <= len
      modifies this, data
      ensures Valid() && (data == old(data) || fresh(data))
      ensures Contents() == old(Contents())[..insertPosition] + [opt] + old(Contents())[updateFrom..]
    {
      hide ShiftedDown;
      ghost var was := Contents();
      var optsLength := len;
      Extend();
      var updateIdx := optsLength + 1;
      ghost var extended := data[..];
      Slices(extended, was, insertPosition, updateFrom, optsLength);
      if updateFrom < updateTo {
        ShiftRight(updateFrom);
      } else {
        updateIdx := ShiftLeft(updateTo, updateFrom, optsLength);
        Shorter(data[..updateTo], extended[..updateTo], insertPosition);
        assert data[..insertPosition] == data[..updateTo][..insertPosition];
      }
      ghost var shifted := data[..];
      assert shifted[..insertPosition] == was[..insertPosition] && shifted[updateTo..updateIdx] == was[updateFrom..];
      data[insertPosition] := opt;
      len := updateIdx;
      Placed(shifted, insertPosition, opt, updateIdx);
      assert Contents() == shifted[insertPosition := opt][..updateIdx];
    }

    /** Replaces every option numbered like `opt` by it, or inserts it in its place. */
    method Set(opt: Opt)
      requires Valid() && Sorted(Contents())
      modifies this, data
      ensures Valid() && Sorted(Contents()) && (data == old(data) || fresh(data))
      ensures Contents() == Replaced(old(Contents()), opt)
    {
      ghost var s := Contents();
      var idxPre, idxPost := FindPosition(opt.id);
      ghost var lo, hi := idxPre + 1, if idxPost == -1 then len else idxPost;
      ReplacedAt(s, opt, lo, hi);
      PutBetween(idxPre, idxPost, opt);
    }

    /** The in-place half of Add. */
    method PutAt(position: nat, opt: Opt)
      requires Valid() && position <= len
      modifies this, data
      ensures Valid() && (data == old(data) || fresh(data))
      ensures Contents() == old(Contents())[..position] + [opt] + old(Contents())[position..]
    {
      ghost var s := Contents();
      Extend();
      assert data[..|s|] == s;
      ShiftRight(position);
      assert data[..position] == s[..position] && data[position + 1..len] == s[position..];
      data[position] := opt;
      assert Contents() == data[..position] + [opt] + data[position + 1..len];
    }

    /** Inserts `opt` behind the options with the same number. */
    method Add(opt: Opt)
      requires Valid() && Sorted(Contents())
      modifies this, data
      ensures Valid() && Sorted(Contents()) && (data == old(data) || fresh(data))
      ensures Contents() == Inserted(old(Contents()), opt)
    {
      ghost var s := Contents();
      var idxPre, idxPost := FindPosition(opt.id);
      if idxPost == -1 {
        idxPost := len;
      }
      InsertedAt(s, opt, idxPre + 1, idxPost);
      PutAt(idxPost, opt);
    }

    /** Removes every option numbered `id`. */
    method Remove(id: int)
      requires Valid() && Sorted(Contents())
      modifies this`len, data
      ensures Valid() && Sorted(Contents())
      ensures Contents() == Keep(old(Contents()), Ne, id)
    {
      ghost var s := Contents();
      var found := Find(id);
      if found.Err? {
        KeepUniform(s, Ne, id, true);
        return;
      }
      var (idxPre, idxPost) := found.value;
      RemovedAt(s, id, idxPre, idxPost);
      CutOut(idxPre, idxPost);
    }

    /** The in-place half of Remove. */
    method CutOut(idxPre: nat, idxPost: nat)
      requires Valid() && idxPre <= idxPost <= len
      modifies this`len, data
      ensures Valid()
      ensures Contents() == old(Contents())[..idxPre] + old(Contents())[idxPost..]
    {
      var end := ShiftLeft(idxPre, idxPost, len);
      len := len - (idxPost - idxPre);
    }
  }

  lemma ReplacedAt(s: seq<Opt>, opt: Opt, lo: int, hi: int)
    requires Sorted(s) && Splits(s, opt.id, lo, hi)
    ensures Replaced(s, opt) == s[..lo] + [opt] + s[hi..] && Sorted(Replaced(s, opt))
  {
    FiltersAreStretches(s, opt.id, lo, hi);
    StretchesKeepOrder(s, opt.id, lo, hi, [opt]);
  }

  lemma InsertedAt(s: seq<Opt>, opt: Opt, lo: int, hi: int)
    requires Sorted(s) && Splits(s, opt.id, lo, hi)
    ensures Inserted(s, opt) == s[..hi] + [opt] + s[hi..] && Sorted(Inserted(s, opt))
  {
    FiltersAreStretches(s, opt.id, lo, hi);
    StretchesKeepOrder(s, opt.id, lo, hi, s[lo..hi] + [opt]);
    InsertionPoint(s, opt, lo, hi);
  }

  lemma InsertionPoint(s: seq<Opt>, opt: Opt, lo: int, hi: int)
    requires 0 <= lo <= hi <= |s|
    ensures s[..lo] + (s[lo..hi] + [opt]) + s[hi..] == s[..hi] + [opt] + s[hi..]
    ensures s[..lo] + s[lo..hi] + [opt] + s[hi..] == s[..hi] + [opt] + s[hi..]
  {
  }

  lemma RemovedAt(s: seq<Opt>, id: int, lo: int, hi: int)
    requires Sorted(s) && Splits(s, id, lo, hi)
    ensures Keep(s, Ne, id) == s[..lo] + s[hi..] && Sorted(Keep(s, Ne, id))
  {
    FiltersAreStretches(s, id, lo, hi);
    StretchesKeepOrder(s, id, lo, hi, []);
    assert s[..lo] + [] + s[hi..] == s[..lo] + s[hi..];
  }

  lemma {:induction false} Stretch(s: seq<Opt>, id: int) returns (lo: int, hi: int)
    requires Sorted(s)
    ensures Splits(s, id, lo, hi)
    decreases |s|
  {
    if s == [] {
      lo, hi := 0, 0;
    } else {
      lo, hi := Stretch(s[..|s| - 1], id);
      if s[|s| - 1].id < id {
        lo, hi := |s|, |s|;
      } else if s[|s| - 1].id == id {
        hi := |s|;
      }
    }
  }

  /** What callers rely on: after Set exactly one option carries the number, after Add the new
      one is the last of them, after Remove none is left; all other options stay, in order. */
  lemma EditsAreLocal(s: seq<Opt>, opt: Opt)
    requires Sorted(s)
    ensures Keep(Replaced(s, opt), Eq, opt.id) == [opt]
    ensures Keep(Inserted(s, opt), Eq, opt.id) == Keep(s, Eq, opt.id) + [opt]
    ensures Keep(Keep(s, Ne, opt.id), Eq, opt.id) == []
    ensures Keep(Replaced(s, opt), Ne, opt.id) == Keep(Inserted(s, opt), Ne, opt.id) == Keep(s, Ne, opt.id)
  {
    hide Keep, Splits;
    var lo, hi := Stretch(s, opt.id);
    SplitBounds(s, opt.id, lo, hi);
    FiltersAreStretches(s, opt.id, lo, hi);
    EditedStretches(s[..lo], [opt], s[hi..], opt.id);
    EditedStretches(s[..lo], s[lo..hi] + [opt], s[hi..], opt.id);
    EditedStretches(s[..lo], [], s[hi..], opt.id);
    assert s[..lo] + [] + s[hi..] == s[..lo] + s[hi..];
    assert s[..lo] + (s[lo..hi] + [opt]) + s[hi..] == s[..lo] + s[lo..hi] + [opt] + s[hi..];
  }

  lemma EditedStretches(low: seq<Opt>, middle: seq<Opt>, high: seq<Opt>, id: int)
    requires forall i :: 0 <= i < |low| ==> low[i].id < id
    requires forall i :: 0 <= i < |middle| ==> middle[i].id == id
    requires forall i :: 0 <= i < |high| ==> high[i].id > id
    ensures Keep(low + middle + high, Eq, id) == middle
    ensures Keep(low + middle + high, Ne, id) == low + high
  {
    hide Keep;
    var s := low + middle + high;
    FiltersAreStretches(s, id, |low|, |low + middle|);
  }
}
