/*
 * suffleToTheLeft: the sparkline's sample window. A new sample is appended
 * and, once the window has reached the width the terminal allows, the
 * oldest sample is dropped. The terminal width, read from the terminal at
 * every push, is a parameter here.
 */
module Window {

  /**
   * The length the window settles at for a terminal `width` columns wide.
   * The source compares the appended length against width - 1 with `<`,
   * and always keeps a window of one, so the window holds width - 2
   * samples, and never fewer than one.
   */
  function Cap(width: int): (c: nat)
    ensures c >= 1 && c >= width - 2
    ensures c == 1 || c == width - 2
  {
    if width - 2 >= 1 then width - 2 else 1
  }

  /**
   * suffleToTheLeft(data, newValue) with the terminal `width` columns wide:
   * the new sample always ends the window, and at most the single oldest
   * sample is dropped to make room for it.
   */
  function ShuffleToTheLeft(data: seq<real>, newValue: real, width: int): (r: seq<real>)
    ensures data == [] ==> r == [newValue]
    ensures |r| >= 1 && r[|r| - 1] == newValue
    ensures r == data + [newValue] || (|data| >= 1 && r == data[1..] + [newValue])
  {
    var fitting := width - 1;
    var appended := data + [newValue];
    if |appended| == 1 then appended
    else if |appended| < fitting then appended
    else appended[1..]
  }

  /**
   * The oldest sample is dropped exactly when the window already holds
   * Cap(width) samples or more. A window longer than that (the terminal has
   * narrowed) is not cut back: it keeps its length.
   */
  lemma ShuffleEviction(data: seq<real>, v: real, width: int)
    ensures |data| < Cap(width) ==> ShuffleToTheLeft(data, v, width) == data + [v]
    ensures |data| >= Cap(width) ==> ShuffleToTheLeft(data, v, width) == data[1..] + [v]
    ensures |data| <= Cap(width) ==> |ShuffleToTheLeft(data, v, width)| <= Cap(width)
    ensures |data| >= Cap(width) ==> |ShuffleToTheLeft(data, v, width)| == |data|
  {
    if |data| >= Cap(width) {
      assert (data + [v])[1..] == data[1..] + [v];
    }
  }

  /** The last `n` elements of `s`, or all of `s` when it is shorter. */
  function LastN(s: seq<real>, n: nat): (r: seq<real>)
    ensures |r| == (if |s| <= n then |s| else n)
    ensures r == s[|s| - |r|..]
  {
    if |s| <= n then s else s[|s| - n..]
  }

  /** Within the cap, a push keeps exactly the last Cap(width) of the samples seen. */
  lemma ShuffleIsLastN(data: seq<real>, v: real, width: int)
    requires |data| <= Cap(width)
    ensures ShuffleToTheLeft(data, v, width) == LastN(data + [v], Cap(width))
  {
    ShuffleEviction(data, v, width);
  }

  lemma LastNAppend(a: seq<real>, b: seq<real>, n: nat)
    ensures LastN(LastN(a, n) + b, n) == LastN(a + b, n)
  {
    if |a| > n {
      var t, ab := |a| - n, a + b;
      assert LastN(a, n) + b == ab[t..];
      calc {
        LastN(ab[t..], n);
        ab[t..][|b|..];
        ab[t + |b|..];
        LastN(ab, n);
      }
    }
  }

  lemma AppendFirst(data: seq<real>, xs: seq<real>)
    requires xs != []
    ensures data + [xs[0]] + xs[1..] == data + xs
  {
    assert xs == [xs[0]] + xs[1..];
  }

  /** The window after pushing `xs` in order, at a fixed width. */
  function PushAll(data: seq<real>, xs: seq<real>, width: int): (r: seq<real>)
    decreases |xs|
  {
    if xs == [] then data else PushAll(ShuffleToTheLeft(data, xs[0], width), xs[1..], width)
  }

  /**
   * First in, first out: starting from a window within the cap, pushing any
   * samples leaves exactly the most recent Cap(width) of them, oldest first.
   */
  lemma {:induction false} PushAllKeepsLatest(data: seq<real>, xs: seq<real>, width: int)
    requires |data| <= Cap(width)
    ensures PushAll(data, xs, width) == LastN(data + xs, Cap(width))
    decreases |xs|
  {
    if xs != [] {
      var c := Cap(width);
      var head, tail := data + [xs[0]], xs[1..];
      var next := ShuffleToTheLeft(data, xs[0], width);
      assert next == LastN(head, c) by { ShuffleIsLastN(data, xs[0], width); }
      PushAllKeepsLatest(next, tail, width);
      assert LastN(next + tail, c) == LastN(data + xs, c) by {
        LastNAppend(head, tail, c);
        AppendFirst(data, xs);
      }
    }
  }

  /** At a fixed width, a window grown from empty never holds more than Cap(width) samples. */
  lemma WindowBound(xs: seq<real>, width: int)
    ensures |PushAll([], xs, width)| <= Cap(width)
    ensures |xs| >= Cap(width) ==> |PushAll([], xs, width)| == Cap(width)
  {
    PushAllKeepsLatest([], xs, width);
  }
}
