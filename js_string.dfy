/** The two JavaScript string built-ins the popup form relies on:
    `String.prototype.trim` and `String.prototype.split` with the regular
    expression `/[,\n]/`. */
module JsString {
  import opened Sequences

  /** ECMAScript WhiteSpace and LineTerminator code points, the set that
      `trim` strips: TAB, VT, FF, SP, NBSP, ZWNBSP, the other Zs space
      separators, LF, CR, LS and PS. */
  predicate IsWhitespace(c: char)
  {
    c == '\t' || c == '\U{B}' || c == '\U{C}' || c == ' ' || c == '\U{A0}' || c == '\U{FEFF}'
    || c == '\U{1680}' || ('\U{2000}' <= c <= '\U{200A}') || c == '\U{202F}' || c == '\U{205F}'
    || c == '\U{3000}'
    || c == '\n' || c == '\r' || c == '\U{2028}' || c == '\U{2029}'
  }

  predicate AllWhitespace(s: string)
  {
    forall k :: 0 <= k < |s| ==> IsWhitespace(s[k])
  }

  /** No leading and no trailing whitespace. */
  predicate IsTrimmed(s: string)
  {
    s == [] || (!IsWhitespace(s[0]) && !IsWhitespace(s[|s| - 1]))
  }

  /** Drops the leading whitespace: the result is a suffix of `s` that does
      not start with whitespace. */
  function TrimStart(s: string): (r: string)
    ensures |r| <= |s|
    ensures forall k :: 0 <= k < |r| ==> r[k] == s[|s| - |r| + k]
    ensures r == [] || !IsWhitespace(r[0])
  {
    if s != [] && IsWhitespace(s[0]) then TrimStart(s[1..]) else s
  }

  /** Drops the trailing whitespace: the result is a prefix of `s` that does
      not end with whitespace. */
  function TrimEnd(s: string): (r: string)
    ensures |r| <= |s|
    ensures forall k :: 0 <= k < |r| ==> r[k] == s[k]
    ensures r == [] || !IsWhitespace(r[|r| - 1])
  {
    if s != [] && IsWhitespace(s[|s| - 1]) then TrimEnd(s[..|s| - 1]) else s
  }

  /** What TrimStart drops is whitespace. */
  lemma {:induction false} TrimStartDropsWhitespace(s: string)
    ensures AllWhitespace(s[..|s| - |TrimStart(s)|])
  {
    if s != [] && IsWhitespace(s[0]) {
      TrimStartDropsWhitespace(s[1..]);
      var n := |s| - |TrimStart(s)|;
      assert forall k :: 1 <= k < n ==> s[k] == s[1..][..n - 1][k - 1];
    }
  }

  /** What TrimEnd drops is whitespace. */
  lemma {:induction false} TrimEndDropsWhitespace(s: string)
    ensures AllWhitespace(s[|TrimEnd(s)|..])
  {
    if s != [] && IsWhitespace(s[|s| - 1]) {
      var u := s[..|s| - 1];
      TrimEndDropsWhitespace(u);
      var n := |TrimEnd(s)|;
      assert forall k :: n <= k < |s| - 1 ==> s[k] == u[n..][k - n];
    }
  }

  /** `String.prototype.trim`. */
  function Trim(s: string): (r: string)
    ensures IsTrimmed(r)
  {
    var t := TrimStart(s);
    var r := TrimEnd(t);
    assert r != [] ==> !IsWhitespace(r[0]) by {
      if r != [] { assert r[0] == t[0]; }
    }
    r
  }

  /** The trim is empty exactly when the string is all whitespace. */
  lemma TrimEmptyIff(s: string)
    ensures Trim(s) == [] <==> AllWhitespace(s)
  {
    var t := TrimStart(s);
    TrimStartDropsWhitespace(s);
    TrimEndDropsWhitespace(t);
    if Trim(s) == [] {
      assert t == [];
      assert s[..|s| - |t|] == s;
    }
  }

  /** Trimming removes exactly the whitespace around the first and last
      non-whitespace characters: any split of `s` into whitespace, a trimmed
      middle and whitespace has that middle as its trim. */
  lemma {:induction false} TrimIsUnique(lead: string, mid: string, trail: string)
    requires AllWhitespace(lead) && AllWhitespace(trail) && IsTrimmed(mid)
    ensures Trim(lead + mid + trail) == mid
  {
    if mid == [] {
      BlankTrimsToEmpty(lead, trail);
      MidNil(lead, trail);
    } else {
      HeadAppend(mid, trail);
      TrimStartOf(lead, mid + trail);
      Assoc(lead, mid, trail);
      TrimEndOf(mid, trail);
    }
  }

  lemma BlankTrimsToEmpty(lead: string, trail: string)
    requires AllWhitespace(lead) && AllWhitespace(trail)
    ensures Trim(lead + trail) == []
  {
    var s := lead + trail;
    forall k | 0 <= k < |s| ensures IsWhitespace(s[k]) {
      if k < |lead| { assert s[k] == lead[k]; } else { assert s[k] == trail[k - |lead|]; }
    }
    TrimEmptyIff(s);
  }

  lemma {:induction false} TrimStartOf(lead: string, rest: string)
    requires AllWhitespace(lead)
    requires rest == [] || !IsWhitespace(rest[0])
    ensures TrimStart(lead + rest) == rest
  {
    if lead != [] {
      assert (lead + rest)[1..] == lead[1..] + rest;
      TrimStartOf(lead[1..], rest);
    } else {
      assert lead + rest == rest;
    }
  }

  lemma {:induction false} TrimEndOf(rest: string, trail: string)
    requires AllWhitespace(trail)
    requires rest == [] || !IsWhitespace(rest[|rest| - 1])
    ensures TrimEnd(rest + trail) == rest
  {
    if trail != [] {
      assert (rest + trail)[..|rest + trail| - 1] == rest + trail[..|trail| - 1];
      TrimEndOf(rest, trail[..|trail| - 1]);
    } else {
      assert rest + trail == rest;
    }
  }

  /** A string with no surrounding whitespace is its own trim. */
  lemma TrimOfTrimmed(s: string)
    requires IsTrimmed(s)
    ensures Trim(s) == s
  {
    TrimIsUnique([], s, []);
    NilAround(s);
  }

  /** Trimming twice is trimming once. */
  lemma TrimIdempotent(s: string)
    ensures Trim(Trim(s)) == Trim(s)
  {
    TrimOfTrimmed(Trim(s));
  }

  /** The characters `/[,\n]/` matches. */
  predicate IsSeparator(c: char)
  {
    c == ',' || c == '\n'
  }

  predicate NoSeparator(s: string)
  {
    forall k :: 0 <= k < |s| ==> !IsSeparator(s[k])
  }

  /** The separators of `s`, in order. */
  function Separators(s: string): (r: string)
    ensures |r| <= |s|
    ensures forall k :: 0 <= k < |r| ==> IsSeparator(r[k])
  {
    if s == [] then [] else (if IsSeparator(s[0]) then [s[0]] else []) + Separators(s[1..])
  }

  /** `s.split(/[,\n]/)`: the pieces between separators, in order, including
      empty ones; the empty string gives one empty piece. */
  function Split(s: string): (r: seq<string>)
    ensures |r| == |Separators(s)| + 1
    ensures forall i :: 0 <= i < |r| ==> NoSeparator(r[i])
  {
    if s == [] then [[]]
    else
      var rest := Split(s[1..]);
      if IsSeparator(s[0]) then [[]] + rest
      else [[s[0]] + rest[0]] + rest[1..]
  }

  /** Puts the separators back between the pieces. */
  function Join(pieces: seq<string>, seps: string): string
    requires |pieces| == |seps| + 1
  {
    if seps == [] then pieces[0] else pieces[0] + [seps[0]] + Join(pieces[1..], seps[1..])
  }

  /** Splitting loses nothing: the pieces, rejoined with the separators that
      were found, give back the original string. */
  lemma {:induction false} SplitJoin(s: string)
    ensures Join(Split(s), Separators(s)) == s
  {
    if s != [] {
      SplitJoin(s[1..]);
      var rest := Split(s[1..]);
      var seps := Separators(s[1..]);
      assert [s[0]] + s[1..] == s;
      if IsSeparator(s[0]) {
        assert Separators(s) == [s[0]] + seps;
        assert Split(s) == [[]] + rest;
        JoinAfterSeparator(rest, s[0], seps);
      } else {
        assert Separators(s) == seps;
        assert Split(s) == [[s[0]] + rest[0]] + rest[1..];
        assert [rest[0]] + rest[1..] == rest;
        JoinExtendFirst(s[0], rest[0], rest[1..], seps);
      }
    }
  }

  /** An empty first piece: the text starts with the first separator. */
  lemma JoinAfterSeparator(pieces: seq<string>, c: char, seps: string)
    requires |pieces| == |seps| + 1
    ensures Join([[]] + pieces, [c] + seps) == [c] + Join(pieces, seps)
  {
    assert ([[]] + pieces)[1..] == pieces;
    assert ([c] + seps)[1..] == seps;
  }

  /** One more character at the front of the first piece is one more
      character at the front of the text. */
  lemma JoinExtendFirst(c: char, first: string, rest: seq<string>, seps: string)
    requires |rest| == |seps|
    ensures Join([[c] + first] + rest, seps) == [c] + Join([first] + rest, seps)
  {
    JoinFirst(first, rest, seps);
    JoinFirst([c] + first, rest, seps);
    ConsAssoc(c, first, JoinTail(rest, seps));
  }

  /** What follows the first piece in the joined text. */
  function JoinTail(rest: seq<string>, seps: string): string
    requires |rest| == |seps|
  {
    if seps == [] then [] else [seps[0]] + Join(rest, seps[1..])
  }

  lemma JoinFirst(first: string, rest: seq<string>, seps: string)
    requires |rest| == |seps|
    ensures Join([first] + rest, seps) == first + JoinTail(rest, seps)
  {
    assert ([first] + rest)[0] == first;
    assert ([first] + rest)[1..] == rest;
  }

  /** Splitting at a separator splits the result: the pieces of `a + [c] + b`
      are the pieces of `a` followed by the pieces of `b`. */
  lemma {:induction false} SplitAtSeparator(a: string, c: char, b: string)
    requires IsSeparator(c)
    ensures Split(a + [c] + b) == Split(a) + Split(b)
  {
    if a == [] {
      assert a + [c] + b == [c] + b;
      assert ([c] + b)[1..] == b;
    } else {
      assert (a + [c] + b)[0] == a[0];
      assert (a + [c] + b)[1..] == a[1..] + [c] + b;
      SplitAtSeparator(a[1..], c, b);
      var p, q := Split(a[1..]), Split(b);
      if IsSeparator(a[0]) {
        ConsAssoc([], p, q);
      } else {
        HeadAppend(p, q);
        ConsAssoc([a[0]] + p[0], p[1..], q);
      }
    }
  }

  /** A string without separators is one piece. */
  lemma {:induction false} SplitNoSeparator(s: string)
    requires NoSeparator(s)
    ensures Split(s) == [s]
  {
    if s != [] {
      SplitNoSeparator(s[1..]);
      assert [s[0]] + s[1..] == s;
    }
  }

  /** The other direction of the round trip: joining separator-free pieces
      with separators and splitting again gives the pieces back. */
  lemma {:induction false} SplitOfJoin(pieces: seq<string>, seps: string)
    requires |pieces| == |seps| + 1
    requires forall k :: 0 <= k < |seps| ==> IsSeparator(seps[k])
    requires forall i :: 0 <= i < |pieces| ==> NoSeparator(pieces[i])
    ensures Split(Join(pieces, seps)) == pieces
  {
    if seps == [] {
      SplitNoSeparator(pieces[0]);
    } else {
      SplitOfJoin(pieces[1..], seps[1..]);
      SplitAtSeparator(pieces[0], seps[0], Join(pieces[1..], seps[1..]));
      SplitNoSeparator(pieces[0]);
      assert [pieces[0]] + pieces[1..] == pieces;
    }
  }
}
