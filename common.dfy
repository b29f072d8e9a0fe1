/** Small shared vocabulary: an Option type and the few JavaScript string
    operations the modelled code relies on (`||` on strings, `includes`,
    `join`). */
module Common {

  datatype Option<T> = None | Some(value: T)

  /** `s` occurs in `t` starting at index `i`. */
  predicate OccursAt(t: string, s: string, i: int)
  {
    0 <= i && i + |s| <= |t| && t[i..i + |s|] == s
  }

  /** `t.includes(s)`: `s` occurs somewhere in `t` as a contiguous piece. */
  predicate Contains(t: string, s: string)
  {
    exists i :: 0 <= i <= |t| && OccursAt(t, s, i)
  }

  /** A piece that sits between two others occurs in their concatenation. */
  lemma ContainsInside(a: string, s: string, b: string)
    ensures Contains(a + s + b, s)
  {
    assert OccursAt(a + s + b, s, |a|);
  }

  /** Occurrence carries over to any text that embeds the containing one. */
  lemma ContainsWithin(t: string, s: string, a: string, b: string)
    requires Contains(t, s)
    ensures Contains(a + t + b, s)
  {
    var i :| 0 <= i <= |t| && OccursAt(t, s, i);
    assert (a + t + b)[|a| + i..|a| + i + |s|] == t[i..i + |s|];
    assert OccursAt(a + t + b, s, |a| + i);
  }

  /** One piece contains another, which contains a third: so does the first. */
  lemma ContainsTransitive(t: string, m: string, s: string)
    requires Contains(t, m) && Contains(m, s)
    ensures Contains(t, s)
  {
    var i :| 0 <= i <= |t| && OccursAt(t, m, i);
    var j :| 0 <= j <= |m| && OccursAt(m, s, j);
    forall k | 0 <= k < |s|
      ensures t[i + j + k] == s[k]
    {
      assert t[i..i + |m|][j + k] == m[j + k];
      assert m[j..j + |s|][k] == s[k];
    }
    assert t[i + j..i + j + |s|] == s;
    assert OccursAt(t, s, i + j);
  }

  /** The concatenation of a template's pieces, in order: its literal text
      and its interpolated values. */
  function Concat(parts: seq<string>): string
  {
    if |parts| == 0 then "" else Concat(parts[..|parts| - 1]) + parts[|parts| - 1]
  }

  /** Concatenation distributes over joining two lists of pieces. */
  lemma {:induction false} ConcatAppend(a: seq<string>, b: seq<string>)
    ensures Concat(a + b) == Concat(a) + Concat(b)
  {
    if |b| == 0 {
      assert a + b == a;
    } else {
      var b', last := b[..|b| - 1], b[|b| - 1];
      assert (a + b)[..|a + b| - 1] == a + b' && (a + b)[|a + b| - 1] == last;
      ConcatAppend(a, b');
      assert Concat(a + b) == Concat(a) + Concat(b') + last;
      assert Concat(a) + Concat(b') + last == Concat(a) + (Concat(b') + last);
    }
  }

  /** A template of three pieces. */
  lemma ConcatThree(a: string, b: string, c: string)
    ensures Concat([a, b, c]) == a + b + c
  {
    assert [a, b, c][..2] == [a, b];
    assert [a, b][..1] == [a];
    assert [a][..0] == [];
    assert Concat([a]) == a;
    assert Concat([a, b]) == a + b;
  }

  /** The concatenation of the first `k` pieces ends with piece `k - 1`. */
  lemma ConcatSnoc(parts: seq<string>, k: nat)
    requires 0 < k <= |parts|
    ensures Concat(parts[..k]) == Concat(parts[..k - 1]) + parts[k - 1]
  {
    assert parts[..k][..k - 1] == parts[..k - 1];
  }

  /** A template of ten pieces. */
  lemma ConcatTen(a0: string, a1: string, a2: string, a3: string, a4: string,
                  a5: string, a6: string, a7: string, a8: string, a9: string)
    ensures Concat([a0, a1, a2, a3, a4, a5, a6, a7, a8, a9])
            == a0 + a1 + a2 + a3 + a4 + a5 + a6 + a7 + a8 + a9
  {
    var p := [a0, a1, a2, a3, a4, a5, a6, a7, a8, a9];
    ConcatSnoc(p, 10); ConcatSnoc(p, 9); ConcatSnoc(p, 8); ConcatSnoc(p, 7); ConcatSnoc(p, 6);
    ConcatSnoc(p, 5); ConcatSnoc(p, 4); ConcatSnoc(p, 3); ConcatSnoc(p, 2); ConcatSnoc(p, 1);
    assert p[..10] == p && p[..0] == [];
  }

  /** A template of one piece. */
  lemma ConcatOne(a: string)
    ensures Concat([a]) == a
  {
    assert [a][..0] == [];
  }

  /** Every piece of a template occurs in its concatenation. */
  lemma {:induction false} ConcatHasPiece(parts: seq<string>, k: nat)
    requires k < |parts|
    ensures Contains(Concat(parts), parts[k])
    decreases |parts|
  {
    var init, last := parts[..|parts| - 1], parts[|parts| - 1];
    assert Concat(parts) == Concat(init) + last;
    if k == |parts| - 1 {
      ContainsInside(Concat(init), last, "");
      assert Concat(init) + last + "" == Concat(parts);
    } else {
      assert init[k] == parts[k];
      ConcatHasPiece(init, k);
      ContainsWithin(Concat(init), parts[k], "", last);
      assert "" + Concat(init) + last == Concat(parts);
    }
  }

  /** Whatever occurs in a piece of a template occurs in the template. */
  lemma InPiece(parts: seq<string>, k: nat, s: string)
    requires k < |parts| && Contains(parts[k], s)
    ensures Contains(Concat(parts), s)
  {
    ConcatHasPiece(parts, k);
    ContainsTransitive(Concat(parts), parts[k], s);
  }

  /** A string contains itself. */
  lemma ContainsSelf(s: string)
    ensures Contains(s, s)
  {
    assert OccursAt(s, s, 0);
  }

  /** JavaScript's `s || d` for a string `s`: the empty string is falsy. */
  function OrElse(s: string, d: string): string
  {
    if s == "" then d else s
  }

  /** JavaScript's `xs.join(sep)`. */
  function JoinWith(xs: seq<string>, sep: string): string
  {
    if |xs| == 0 then ""
    else if |xs| == 1 then xs[0]
    else xs[0] + sep + JoinWith(xs[1..], sep)
  }

  /** The index of the first `c` in `s`, or `|s|` if there is none. */
  function IndexOf(s: string, c: char): (r: nat)
    ensures r <= |s|
    ensures forall i | 0 <= i < r :: s[i] != c
    ensures r < |s| ==> s[r] == c
  {
    if |s| == 0 then 0
    else if s[0] == c then 0
    else 1 + IndexOf(s[1..], c)
  }

  /** In `w + rest`, with no `c` in `w` and `rest` empty or starting with
      `c`, the first `c` is right after `w`. */
  lemma {:induction false} IndexOfAfter(w: string, c: char, rest: string)
    requires forall i | 0 <= i < |w| :: w[i] != c
    requires rest == "" || rest[0] == c
    ensures IndexOf(w + rest, c) == |w|
    decreases |w|
  {
    if |w| == 0 {
      assert w + rest == rest;
    } else {
      assert (w + rest)[0] == w[0];
      assert (w + rest)[1..] == w[1..] + rest;
      assert forall i | 0 <= i < |w| - 1 :: w[1..][i] == w[i + 1];
      IndexOfAfter(w[1..], c, rest);
    }
  }

  /** `p` is a prefix of `q`. */
  predicate IsPrefix<T(==)>(p: seq<T>, q: seq<T>)
  {
    |p| <= |q| && q[..|p|] == p
  }
}
