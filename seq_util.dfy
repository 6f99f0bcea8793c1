/**
 * Mapping a function over a sequence, front to back, as both passes do when
 * they turn the tiles they visit into requests and requested coordinates.
 */
module SeqUtil {

  /** `f` applied to each element, in order. */
  function Map<T, R>(f: T -> R, s: seq<T>): (r: seq<R>)
    ensures |r| == |s|
  {
    if |s| == 0 then [] else Map(f, s[..|s| - 1]) + [f(s[|s| - 1])]
  }

  /** The set of the images of the elements. */
  function Image<T, R>(f: T -> R, s: seq<T>): set<R> {
    if |s| == 0 then {} else Image(f, s[..|s| - 1]) + {f(s[|s| - 1])}
  }

  lemma AppendAssoc<T>(a: seq<T>, b: seq<T>, c: seq<T>)
    ensures (a + b) + c == a + (b + c)
  {
  }

  /** Mapping one more element appends its image. */
  lemma MapStep<T, R>(f: T -> R, s: seq<T>, i: nat)
    requires i < |s|
    ensures Map(f, s[..i + 1]) == Map(f, s[..i]) + [f(s[i])]
    ensures Image(f, s[..i + 1]) == Image(f, s[..i]) + {f(s[i])}
  {
    assert s[..i + 1][..i] == s[..i];
  }

  /** Mapping one element gives its image alone. */
  lemma MapSingle<T, R>(f: T -> R, x: T)
    ensures Map(f, [x]) == [f(x)]
    ensures Image(f, [x]) == {f(x)}
  {
    assert [x][..0] == [];
  }

  /** Mapping a concatenation concatenates the mapped parts. */
  lemma {:induction false} MapAppend<T, R>(f: T -> R, a: seq<T>, b: seq<T>)
    ensures Map(f, a + b) == Map(f, a) + Map(f, b)
    ensures Image(f, a + b) == Image(f, a) + Image(f, b)
  {
    if |b| > 0 {
      var front := b[..|b| - 1];
      MapAppend(f, a, front);
      assert (a + b)[..|a + b| - 1] == a + front;
      AppendAssoc(Map(f, a), Map(f, front), [f(b[|b| - 1])]);
    } else {
      assert a + b == a;
    }
  }

  /** Each element's image sits at the element's place. */
  lemma {:induction false} MapAt<T, R>(f: T -> R, s: seq<T>)
    ensures forall k | 0 <= k < |s| :: Map(f, s)[k] == f(s[k])
  {
    if |s| > 0 {
      var front := s[..|s| - 1];
      MapAt(f, front);
      assert forall k | 0 <= k < |front| :: s[k] == front[k];
    }
  }

  /** An image is in the set exactly when some element maps to it. */
  lemma {:induction false} ImageIff<T, R>(f: T -> R, s: seq<T>, y: R)
    ensures y in Image(f, s) <==> exists k | 0 <= k < |s| :: f(s[k]) == y
  {
    if |s| > 0 {
      var front := s[..|s| - 1];
      ImageIff(f, front, y);
      if exists k | 0 <= k < |front| :: f(front[k]) == y {
        var k :| 0 <= k < |front| && f(front[k]) == y;
        assert s[k] == front[k];
      }
      if exists k | 0 <= k < |s| :: f(s[k]) == y {
        var k :| 0 <= k < |s| && f(s[k]) == y;
        if k < |front| {
          assert front[k] == s[k];
        }
      }
    }
  }
}
