/**
 * The bounded buffer idiom the source uses three times (hook events in
 * HookService and in the `/hook` route, response times per route):
 * `buf.push(x); if (buf.length > cap) buf.shift();`.
 */
module Ring {
  import opened Common

  /** One push followed by at most one shift. */
  function Push<T>(ring: seq<T>, x: T, cap: nat): (r: seq<T>)
    ensures |ring| < cap ==> r == ring + [x]
    ensures |ring| >= cap && ring != [] ==> r == ring[1..] + [x]
    ensures cap == 0 && ring == [] ==> r == []
    ensures |ring| <= cap ==> |r| <= cap
  {
    var grown := ring + [x];
    if |grown| > cap then grown[1..] else grown
  }

  /**
   * Read newest first, a push puts `x` in front and keeps the `cap - 1`
   * newest of the events before it.
   */
  lemma PushNewestFirst<T>(ring: seq<T>, x: T, cap: nat)
    requires 0 < cap && |ring| <= cap
    ensures Reverse(Push(ring, x, cap)) == [x] + Take(Reverse(ring), cap - 1)
  {
    if |ring| < cap {
      ReverseSnoc(ring, x);
    } else {
      ReverseSnoc(ring[1..], x);
      assert Reverse(ring) == Reverse(ring[1..]) + [ring[0]];
      assert Take(Reverse(ring), cap - 1) == Reverse(ring[1..]);
    }
  }

  /** Pushing `xs` one after the other, oldest first. */
  function PushAll<T>(ring: seq<T>, xs: seq<T>, cap: nat): seq<T> {
    if xs == [] then ring else Push(PushAll(ring, xs[..|xs| - 1], cap), xs[|xs| - 1], cap)
  }

  /** The last `cap` elements of `xs` (all of them when there are fewer). */
  function Newest<T>(xs: seq<T>, cap: nat): (r: seq<T>)
    ensures |r| == if |xs| < cap then |xs| else cap
  {
    if |xs| <= cap then xs else xs[|xs| - cap..]
  }

  /**
   * However many events were pushed into an empty ring, it holds exactly the
   * `cap` most recent ones, oldest first.
   */
  lemma {:induction false} PushAllKeepsNewest<T>(xs: seq<T>, cap: nat)
    requires cap > 0
    ensures PushAll([], xs, cap) == Newest(xs, cap)
  {
    if xs != [] {
      var front := xs[..|xs| - 1];
      var x := xs[|xs| - 1];
      var prev := PushAll([], front, cap);
      PushAllKeepsNewest(front, cap);
      if |front| < cap {
        assert prev == front;
        assert front + [x] == xs;
      } else {
        var k := |front| - cap + 1;
        assert prev[1..] == front[k..];
        assert front[k..] + [x] == xs[|xs| - cap..];
      }
    }
  }

  /** A ring never grows past its capacity, whatever is pushed. */
  lemma {:induction false} PushAllBounded<T>(ring: seq<T>, xs: seq<T>, cap: nat)
    requires |ring| <= cap
    ensures |PushAll(ring, xs, cap)| <= cap
  {
    if xs != [] {
      PushAllBounded(ring, xs[..|xs| - 1], cap);
    }
  }
}
