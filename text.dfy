/** The PHP string and array primitives the commands are built from:
    `trim`, `explode`, `implode`, `array_filter` (which drops falsy
    strings), `str_replace` on one character and `str_starts_with`.
    Strings are sequences of characters; PHP works on bytes, and no
    encoding is modelled. */
module Text {

  /** PHP's truthiness of a string: `""` and `"0"` are the only falsy ones. */
  predicate Truthy(s: string) {
    s != "" && s != "0"
  }

  /** The characters `trim($s)` strips when no list is given: " \t\n\r\0\x0B". */
  const Whitespace: set<char> := {' ', '\t', '\n', '\r', '\0', '\U{B}'}

  /** Every character of `s` is in `cs`. */
  predicate AllIn(s: string, cs: set<char>) {
    forall i :: 0 <= i < |s| ==> s[i] in cs
  }

  /** `ltrim($s, $cs)`: drop the leading characters that are in `cs`. */
  function TrimLeft(s: string, cs: set<char>): (r: string)
    ensures |r| <= |s| && r == s[|s| - |r|..]
    ensures AllIn(s[..|s| - |r|], cs)
    ensures r != [] ==> r[0] !in cs
    decreases |s|
  {
    if s != [] && s[0] in cs then
      var r := TrimLeft(s[1..], cs);
      assert s[1..][..|s[1..]| - |r|] == s[1..|s| - |r|];
      assert forall i :: 0 <= i < |s| - |r| ==> s[..|s| - |r|][i] == s[i];
      assert forall i :: 0 < i < |s| - |r| ==> s[i] == s[1..|s| - |r|][i - 1];
      r
    else s
  }

  /** `rtrim($s, $cs)`: drop the trailing characters that are in `cs`. */
  function TrimRight(s: string, cs: set<char>): (r: string)
    ensures |r| <= |s| && r == s[..|r|]
    ensures AllIn(s[|r|..], cs)
    ensures r != [] ==> r[|r| - 1] !in cs
    decreases |s|
  {
    if s != [] && s[|s| - 1] in cs then
      var r := TrimRight(s[..|s| - 1], cs);
      assert s[..|s| - 1][|r|..] == s[|r|..|s| - 1];
      assert forall i :: 0 <= i < |s| - 1 - |r| ==> s[|r|..][i] == s[..|s| - 1][|r|..][i];
      r
    else s
  }

  /** `trim($s, $cs)`: strip `cs` characters from both ends. */
  function Trim(s: string, cs: set<char>): string {
    TrimRight(TrimLeft(s, cs), cs)
  }

  /** Where `trim` cuts: the bounds of the slice it keeps. */
  lemma TrimBounds(s: string, cs: set<char>) returns (i: nat, j: nat)
    ensures i <= j <= |s| && Trim(s, cs) == s[i..j]
    ensures AllIn(s[..i], cs) && AllIn(s[j..], cs)
  {
    var l := TrimLeft(s, cs);
    var r := TrimRight(l, cs);
    i := |s| - |l|;
    j := i + |r|;
    assert l == s[i..];
    assert l[..|r|] == s[i..j];
    assert s[j..] == l[|r|..];
  }

  /** What `trim` leaves: a slice of its input that neither begins nor ends
      with a stripped character, with only stripped characters cut off on
      either side. */
  lemma TrimIsSlice(s: string, cs: set<char>)
    ensures exists i, j :: 0 <= i <= j <= |s| && Trim(s, cs) == s[i..j]
                           && AllIn(s[..i], cs) && AllIn(s[j..], cs)
    ensures Trim(s, cs) != [] ==> Trim(s, cs)[0] !in cs && Trim(s, cs)[|Trim(s, cs)| - 1] !in cs
  {
    var i, j := TrimBounds(s, cs);
    var l := TrimLeft(s, cs);
    if TrimRight(l, cs) != [] {
      assert TrimRight(l, cs)[0] == l[0];
    }
  }

  /** Trimming a string that has nothing to strip leaves it unchanged. */
  lemma TrimClean(s: string, cs: set<char>)
    requires s != [] ==> s[0] !in cs && s[|s| - 1] !in cs
    ensures Trim(s, cs) == s
  {
  }

  /** `explode($d, $s)`: the pieces between the separators, always at least
      one (an empty input gives one empty piece). */
  function Explode(s: string, d: char): (parts: seq<string>)
    ensures |parts| >= 1
    decreases |s|
  {
    if s == [] then [""]
    else
      var rest := Explode(s[1..], d);
      if s[0] == d then [""] + rest
      else [[s[0]] + rest[0]] + rest[1..]
  }

  /** No piece of `explode` contains the separator. */
  lemma {:induction false} ExplodeSeparatorFree(s: string, d: char)
    ensures forall p :: p in Explode(s, d) ==> d !in p
    decreases |s|
  {
    if s != [] {
      ExplodeSeparatorFree(s[1..], d);
      var rest := Explode(s[1..], d);
      if s[0] != d {
        assert rest[0] in rest;
        assert forall p :: p in rest[1..] ==> p in rest;
      }
    }
  }

  /** One step of `explode`: the first character either ends the first
      piece or joins it. */
  lemma ExplodeCons(c: char, t: string, d: char)
    ensures Explode([c] + t, d) == if c == d then [""] + Explode(t, d)
                                   else [[c] + Explode(t, d)[0]] + Explode(t, d)[1..]
  {
    assert ([c] + t)[1..] == t;
  }

  /** The inductive step of `ExplodeJoin` when the first character is the
      separator: it contributes an empty first piece. */
  lemma ExplodeJoinStepSeparator(t: string, b: string, d: char)
    requires Explode(t + [d] + b, d) == Explode(t, d) + Explode(b, d)
    ensures Explode([d] + t + [d] + b, d) == Explode([d] + t, d) + Explode(b, d)
  {
    assert [d] + t + [d] + b == [d] + (t + [d] + b);
    ExplodeCons(d, t + [d] + b, d);
    ExplodeCons(d, t, d);
    Regroup([""], Explode(t, d), Explode(b, d));
  }

  /** The inductive step of `ExplodeJoin` when the first character is not
      the separator: it joins the first piece. */
  lemma ExplodeJoinStepChar(c: char, t: string, b: string, d: char)
    requires c != d
    requires Explode(t + [d] + b, d) == Explode(t, d) + Explode(b, d)
    ensures Explode([c] + t + [d] + b, d) == Explode([c] + t, d) + Explode(b, d)
  {
    var front, back := Explode(t, d), Explode(b, d);
    assert [c] + t + [d] + b == [c] + (t + [d] + b);
    ExplodeCons(c, t + [d] + b, d);
    ExplodeCons(c, t, d);
    JoinFirstPiece([c], front, back);
  }

  /** Extending the first piece of a concatenation extends the first piece
      of its left part. */
  lemma JoinFirstPiece(p: string, front: seq<string>, back: seq<string>)
    requires |front| >= 1
    ensures [p + (front + back)[0]] + (front + back)[1..] == ([p + front[0]] + front[1..]) + back
  {
    assert (front + back)[0] == front[0];
    assert (front + back)[1..] == front[1..] + back;
    Regroup([p + front[0]], front[1..], back);
  }

  /** Splitting at a separator splits the pieces there. */
  lemma {:induction false} ExplodeJoin(a: string, b: string, d: char)
    ensures Explode(a + [d] + b, d) == Explode(a, d) + Explode(b, d)
    decreases |a|
  {
    if a == [] {
      assert a + [d] + b == [d] + b;
      ExplodeCons(d, b, d);
    } else {
      ExplodeJoin(a[1..], b, d);
      assert a == [a[0]] + a[1..];
      if a[0] == d {
        ExplodeJoinStepSeparator(a[1..], b, d);
      } else {
        ExplodeJoinStepChar(a[0], a[1..], b, d);
      }
    }
  }
  /** Concatenation regroups freely: a proof step, called where the solver
      would otherwise have to find the regrouping of a long concatenation
      by itself. */
  lemma Regroup<T>(a: seq<T>, b: seq<T>, c: seq<T>)
    ensures a + b + c == a + (b + c)
  {
  }

  /** `implode($glue, $parts)`: the parts joined by `glue`. */
  function Implode(parts: seq<string>, glue: string): string
    decreases |parts|
  {
    if parts == [] then ""
    else if |parts| == 1 then parts[0]
    else parts[0] + glue + Implode(parts[1..], glue)
  }

  /** Joining the pieces of `explode` with the separator gives back the input. */
  lemma {:induction false} ImplodeExplode(s: string, d: char)
    ensures Implode(Explode(s, d), [d]) == s
    decreases |s|
  {
    if s != [] {
      var rest := Explode(s[1..], d);
      ImplodeExplode(s[1..], d);
      if s[0] == d {
        assert Explode(s, d) == [""] + rest;
        assert ([""] + rest)[1..] == rest;
        assert s == [d] + s[1..];
      } else {
        var parts := [[s[0]] + rest[0]] + rest[1..];
        assert Explode(s, d) == parts;
        if |rest| == 1 {
          assert Implode(parts, [d]) == [s[0]] + rest[0];
          assert s == [s[0]] + s[1..];
        } else {
          assert parts[1..] == rest[1..];
          assert Implode(parts, [d]) == [s[0]] + (rest[0] + [d] + Implode(rest[1..], [d]));
          assert s == [s[0]] + s[1..];
        }
      }
    }
  }

  /** A separator-free prefix is glued onto the first piece of what follows. */
  lemma {:induction false} ExplodePrefix(p: string, s: string, d: char)
    requires d !in p
    ensures Explode(p + s, d) == [p + Explode(s, d)[0]] + Explode(s, d)[1..]
    decreases |p|
  {
    if p != [] {
      ExplodePrefix(p[1..], s, d);
      assert p[0] in p;
      assert p == [p[0]] + p[1..];
      ExplodePrefixStep(p[0], p[1..], s, d);
    } else {
      var e := Explode(s, d);
      assert p + s == s;
      assert p + e[0] == e[0];
      assert e == [e[0]] + e[1..];
    }
  }

  /** The inductive step of `ExplodePrefix`: one more character that is not
      the separator joins the first piece. */
  lemma ExplodePrefixStep(c: char, q: string, s: string, d: char)
    requires c != d
    requires Explode(q + s, d) == [q + Explode(s, d)[0]] + Explode(s, d)[1..]
    ensures Explode([c] + q + s, d) == [[c] + q + Explode(s, d)[0]] + Explode(s, d)[1..]
  {
    var e := Explode(s, d);
    Regroup([c], q, s);
    ExplodeCons(c, q + s, d);
    Regroup([c], q, e[0]);
  }

  /** Splitting a join of separator-free pieces gives the pieces back. */
  lemma {:induction false} ExplodeImplode(parts: seq<string>, d: char)
    requires |parts| >= 1
    requires forall p :: p in parts ==> d !in p
    ensures Explode(Implode(parts, [d]), d) == parts
    decreases |parts|
  {
    if |parts| == 1 {
      ExplodePrefix(parts[0], "", d);
      assert parts[0] + "" == parts[0];
    } else {
      var tail := Implode(parts[1..], [d]);
      ExplodeImplode(parts[1..], d);
      assert Implode(parts, [d]) == parts[0] + ([d] + tail);
      ExplodePrefix(parts[0], [d] + tail, d);
      assert ([d] + tail)[1..] == tail;
      assert Explode([d] + tail, d) == [""] + parts[1..];
      assert parts[0] + "" == parts[0];
    }
  }

  /** `array_values(array_filter($xs))` on strings: keep the truthy ones in order. */
  function FilterTruthy(xs: seq<string>): (r: seq<string>)
    ensures |r| <= |xs|
    ensures forall x :: x in r <==> x in xs && Truthy(x)
    decreases |xs|
  {
    if xs == [] then []
    else (if Truthy(xs[0]) then [xs[0]] else []) + FilterTruthy(xs[1..])
  }

  /** Filtering distributes over concatenation, so it keeps the input order. */
  lemma {:induction false} FilterTruthyAppend(a: seq<string>, b: seq<string>)
    ensures FilterTruthy(a + b) == FilterTruthy(a) + FilterTruthy(b)
    decreases |a|
  {
    if a == [] {
      assert a + b == b;
    } else {
      FilterTruthyAppend(a[1..], b);
      var head := if Truthy(a[0]) then [a[0]] else [];
      assert (a + b)[0] == a[0] && (a + b)[1..] == a[1..] + b;
      assert FilterTruthy(a + b) == head + FilterTruthy(a[1..] + b);
      assert FilterTruthy(a) == head + FilterTruthy(a[1..]);
      Regroup(head, FilterTruthy(a[1..]), FilterTruthy(b));
    }
  }

  /** Filtering a list of truthy strings changes nothing. */
  lemma {:induction false} FilterTruthyKeepsTruthy(xs: seq<string>)
    requires forall i :: 0 <= i < |xs| ==> Truthy(xs[i])
    ensures FilterTruthy(xs) == xs
    decreases |xs|
  {
    if xs != [] {
      FilterTruthyKeepsTruthy(xs[1..]);
    }
  }

  /** `array_map($f, $xs)` on strings. */
  function MapEach(xs: seq<string>, f: string -> string): (r: seq<string>)
    ensures |r| == |xs|
    ensures forall i :: 0 <= i < |xs| ==> r[i] == f(xs[i])
  {
    seq(|xs|, i requires 0 <= i < |xs| => f(xs[i]))
  }

  /** Mapping distributes over concatenation. */
  lemma MapEachAppend(a: seq<string>, b: seq<string>, f: string -> string)
    ensures MapEach(a + b, f) == MapEach(a, f) + MapEach(b, f)
  {
    var l, r := MapEach(a + b, f), MapEach(a, f) + MapEach(b, f);
    forall i | 0 <= i < |l| ensures l[i] == r[i] {
      if i < |a| {
        assert (a + b)[i] == a[i];
      } else {
        assert (a + b)[i] == b[i - |a|];
      }
    }
  }

  /** `array_map(fn ($s) => trim($s, $cs), $xs)`. */
  function TrimEach(xs: seq<string>, cs: set<char>): (r: seq<string>)
    ensures |r| == |xs|
    ensures forall i :: 0 <= i < |xs| ==> r[i] == Trim(xs[i], cs)
  {
    MapEach(xs, s => Trim(s, cs))
  }

  /** Trimming every piece distributes over concatenation. */
  lemma TrimEachAppend(a: seq<string>, b: seq<string>, cs: set<char>)
    ensures TrimEach(a + b, cs) == TrimEach(a, cs) + TrimEach(b, cs)
  {
    MapEachAppend(a, b, s => Trim(s, cs));
  }

  /** `str_replace($a, $b, $s)` for single characters. */
  function ReplaceChar(s: string, a: char, b: char): (r: string)
    ensures |r| == |s|
    ensures a != b ==> a !in r
    ensures forall i :: 0 <= i < |s| ==> r[i] == if s[i] == a then b else s[i]
  {
    seq(|s|, i requires 0 <= i < |s| => if s[i] == a then b else s[i])
  }

  /** `str_starts_with($s, $p)`. */
  predicate StartsWith(s: string, p: string) {
    |p| <= |s| && s[..|p|] == p
  }
}
