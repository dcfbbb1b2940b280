/**
 A bounded history kept as a Go slice: a view (offset and length) into a backing array that is
 re-sliced in place and reallocated when `append` finds it full.
 */
module Windows {
  import opened Basics

  /** On a full window, dropping the first makes room for one more. */
  lemma DropsOne<T>(s: seq<T>, x: T, max: nat)
    ensures |s| < max ==> LastN(s + [x], max) == s + [x]
    ensures |s| == max > 0 ==> LastN(s + [x], max) == s[1..] + [x]
  {
  }

  class Window<T(0)> {
    const max: nat
    var arr: array<T>
    var off: nat
    var len: nat
    /** Everything ever pushed. */
    ghost var log: seq<T>

    ghost predicate InBounds()
      reads this
    {
      off + len <= arr.Length
    }

    ghost predicate Valid()
      reads this, arr
    {
      && max > 0
      && InBounds()
      && Contents() == LastN(log, max)
    }

    function Contents(): (s: seq<T>)
      requires InBounds()
      reads this, arr
      ensures |s| == len
    {
      arr[off..off + len]
    }

    constructor (max: nat)
      requires max > 0
      ensures Valid() && fresh(arr)
      ensures this.max == max && log == [] && Contents() == []
    {
      this.max := max;
      arr := new T[max];
      off, len := 0, 0;
      log := [];
    }

    /** Go's `append`: in place while the backing array has room, else into a larger array of any size. */
    method Append(x: T)
      requires InBounds()
      modifies this`arr, this`off, this`len, arr
      ensures InBounds()
      ensures arr == old(arr) || fresh(arr)
      ensures Contents() == old(Contents()) + [x]
    {
      if off + len == arr.Length {
        var extra :| 0 <= extra;
        var bigger := new T[len + 1 + extra];
        var i := 0;
        while i < len
          invariant 0 <= i <= len
          invariant bigger[..i] == arr[off..off + i]
          modifies bigger
        {
          bigger[i] := arr[off + i];
          i := i + 1;
        }
        arr, off := bigger, 0;
      }
      ghost var before := Contents();
      arr[off + len] := x;
      len := len + 1;
      assert arr[off..off + len - 1] == before;
    }

    /** `trimToLast`: re-slice, moving nothing. */
    method Trim()
      requires InBounds()
      modifies this`off, this`len
      ensures InBounds() && Contents() == LastN(old(Contents()), max)
    {
      if len > max {
        ghost var all := Contents();
        off, len := off + (len - max), max;
        assert Contents() == all[|all| - max..];
      }
    }

    /** `trimToLast(append(s, x), max)`, as the hub keeps its two caches. */
    method Push(x: T)
      requires Valid()
      modifies this, arr
      ensures Valid() && (arr == old(arr) || fresh(arr))
      ensures log == old(log) + [x]
      ensures Contents() == LastN(old(Contents()) + [x], max)
    {
      hide LastN;
      LastNAppend(log, x, max);
      Append(x);
      Trim();
      log := log + [x];
    }

    /** Drop the first element when full, then append, as the state machine keeps its history. */
    method DropThenPush(x: T)
      requires Valid()
      modifies this, arr
      ensures Valid() && (arr == old(arr) || fresh(arr))
      ensures log == old(log) + [x]
      ensures Contents() == LastN(old(Contents()) + [x], max)
    {
      LastNAppend(log, x, max);
      DropsOne(Contents(), x, max);
      assert |Contents()| <= max;
      hide LastN;
      if len >= max {
        off, len := off + 1, len - 1;
        assert Contents() == old(Contents())[1..];
      }
      Append(x);
      log := log + [x];
    }

    /** `slices.Clone`: a copy with a backing array of its own. */
    method Clone() returns (copy: array<T>)
      requires Valid()
      ensures fresh(copy) && copy[..] == Contents()
    {
      copy := new T[len];
      var i := 0;
      while i < len
        invariant 0 <= i <= len
        invariant copy[..i] == arr[off..off + i]
      {
        copy[i] := arr[off + i];
        i := i + 1;
      }
      assert copy[..] == copy[..len];
    }
  }

  /** A copy handed out keeps its contents whatever is pushed later, in place or not. */
  method CloneThenPushAll<T(0)>(w: Window<T>, xs: seq<T>) returns (copy: array<T>)
    requires w.Valid()
    modifies w, w.arr
    ensures copy[..] == old(w.Contents())
    ensures w.Valid() && w.Contents() == LastN(old(w.log) + xs, w.max)
  {
    copy := w.Clone();
    hide LastN, Window.Contents;
    var i := 0;
    while i < |xs|
      invariant 0 <= i <= |xs|
      invariant w.Valid() && w.log == old(w.log) + xs[..i]
      invariant w.arr == old(w.arr) || fresh(w.arr)
      invariant fresh(copy) && copy != w.arr
      invariant copy[..] == old(w.Contents())
    {
      assert xs[..i + 1] == xs[..i] + [xs[i]];
      w.Push(xs[i]);
      i := i + 1;
    }
    assert xs[..i] == xs;
  }
}
