/** The fixed-size ring that the pixel, header and sync detectors fill one
    sample at a time and copy out, oldest first, when it is full. */
module RingWindow {
  import opened Division

  /** The last `n` elements of `s`. */
  function Last(s: seq<int>, n: nat): (r: seq<int>)
    requires n <= |s|
    ensures |r| == n
  {
    s[|s| - n..]
  }

  /** The hop counter after `n` pushes: it runs once the window is full. */
  function HopAfter(n: nat, window: nat, hop: nat): nat
    requires hop > 0
  {
    if n < window then 0 else (n + 1 - window) % hop
  }

  lemma HopStep(n: nat, window: nat, hop: nat)
    requires hop > 0
    ensures HopAfter(n + 1, window, hop) ==
              if n + 1 < window || HopAfter(n, window, hop) == hop - 1 then 0 else HopAfter(n, window, hop) + 1
  {
    if n + 1 >= window {
      CountUp(n + 1 - window, hop);
    }
  }

  class Ring {
    const buf: array<int>
    const window: array<int>
    var pos: nat
    var fill: nat
    /** Everything pushed since the ring was made or reset, in arrival order. */
    ghost var recent: seq<int>

    ghost predicate Valid()
      reads this, buf, window
    {
      && buf != window
      && buf.Length == window.Length > 0
      && pos < buf.Length
      && fill == (if |recent| < buf.Length then |recent| else buf.Length)
      && forall i :: 0 <= i < buf.Length && Age(i, pos, buf.Length) < fill ==>
           buf[i] == recent[|recent| - 1 - Age(i, pos, buf.Length)]
    }

    /** How many pushes ago slot `i` was written, when the next slot is `pos`. */
    static function Age(i: int, pos: int, n: int): int {
      if i < pos then pos - 1 - i else pos - 1 - i + n
    }

    constructor (n: nat)
      requires n > 0
      ensures Valid() && buf.Length == n && recent == []
      ensures fresh(buf) && fresh(window)
    {
      buf := new int[n](_ => 0);
      window := new int[n](_ => 0);
      pos, fill, recent := 0, 0, [];
    }

    method Reset()
      requires Valid()
      modifies this
      ensures Valid() && recent == []
    {
      pos, fill, recent := 0, 0, [];
    }

    method Push(sample: int)
      requires Valid()
      modifies this, buf
      ensures Valid() && recent == old(recent) + [sample]
    {
      buf[pos] := sample;
      pos := pos + 1;
      if pos >= buf.Length {
        pos := 0;
      }
      if fill < buf.Length {
        fill := fill + 1;
      }
      recent := recent + [sample];
    }

    /** A full ring is copied out as the last `Length` samples since the reset. */
    method CopyOut()
      requires Valid() && fill == buf.Length
      modifies window
      ensures Valid() && window[..] == Last(recent, buf.Length)
    {
      for j := 0 to buf.Length
        invariant buf[..] == old(buf[..])
        invariant forall k :: 0 <= k < j ==> window[k] == recent[|recent| - buf.Length + k]
      {
        var idx := pos + j;
        if idx >= buf.Length {
          idx := idx - buf.Length;
        }
        assert Age(idx, pos, buf.Length) == buf.Length - 1 - j;
        window[j] := buf[idx];
      }
    }
  }
}
