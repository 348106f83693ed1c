/**
 * The JavaScript string built-ins the handler uses (`includes`, `startsWith`,
 * `toLowerCase`, `trim`, `split("\n")`), stated over `seq<char>`.
 */
module JsStrings {

  /** `s.startsWith(p)`. */
  predicate StartsWith(s: string, p: string)
  {
    |p| <= |s| && s[..|p|] == p
  }

  /** `t` occurs in `s` starting at position `i`. */
  predicate OccursAt(s: string, t: string, i: int)
  {
    0 <= i && i + |t| <= |s| && s[i..i + |t|] == t
  }

  /** `s.includes(t)`: some position of `s` begins a copy of `t`. */
  predicate Includes(s: string, t: string)
    ensures Includes(s, t) <==> exists i :: OccursAt(s, t, i)
    decreases |s|
  {
    if StartsWith(s, t) then
      assert OccursAt(s, t, 0);
      true
    else if s == [] then
      false
    else
      var r := Includes(s[1..], t);
      assert forall i {:trigger OccursAt(s, t, i)} :: 1 <= i ==> (OccursAt(s, t, i) <==> OccursAt(s[1..], t, i - 1));
      assert r ==> OccursAt(s, t, 1 + (var j :| OccursAt(s[1..], t, j); j));
      r
  }

  /** ASCII letters are folded; other characters are left as they are. */
  function LowerChar(c: char): (d: char)
    ensures !('A' <= d <= 'Z')
    ensures d != c ==> 'A' <= c <= 'Z' && 'a' <= d <= 'z'
    ensures 'A' <= c <= 'Z' ==> d as int == c as int + 32
  {
    if 'A' <= c <= 'Z' then (c as int + 32) as char else c
  }

  /** `s.toLowerCase()`, on ASCII letters. */
  function ToLower(s: string): (r: string)
    ensures |r| == |s|
    ensures forall i :: 0 <= i < |r| ==> !('A' <= r[i] <= 'Z')
    ensures forall i :: 0 <= i < |s| && !('A' <= s[i] <= 'Z') ==> r[i] == s[i]
    ensures forall i :: 0 <= i < |s| ==> r[i] == LowerChar(s[i])
  {
    seq(|s|, i requires 0 <= i < |s| => LowerChar(s[i]))
  }

  lemma {:induction false} ToLowerAppend(a: string, b: string)
    ensures ToLower(a + b) == ToLower(a) + ToLower(b)
  {
    assert forall i :: 0 <= i < |a| + |b| ==> ToLower(a + b)[i] == (ToLower(a) + ToLower(b))[i];
  }

  lemma ToLowerIdempotent(s: string)
    ensures ToLower(ToLower(s)) == ToLower(s)
  {
  }

  /**
   * ECMAScript WhiteSpace and LineTerminator code points: what `trim`
   * removes (TAB, VT, FF, SP, NBSP, ZWNBSP, the other Zs separators, LF, CR,
   * LS and PS).
   */
  predicate IsWhitespace(c: char)
  {
    || c == '\t' || c == '\n' || c == '\U{000B}' || c == '\U{000C}' || c == '\r'
    || c == ' ' || c == '\U{00A0}' || c == '\U{1680}'
    || ('\U{2000}' <= c <= '\U{200A}')
    || c == '\U{2028}' || c == '\U{2029}' || c == '\U{202F}' || c == '\U{205F}'
    || c == '\U{3000}' || c == '\U{FEFF}'
  }

  /** Every character of `s` is whitespace. */
  predicate Blank(s: string)
  {
    forall i :: 0 <= i < |s| ==> IsWhitespace(s[i])
  }

  /** `s` with its leading whitespace removed. */
  function TrimStart(s: string): string
    decreases |s|
  {
    if s != [] && IsWhitespace(s[0]) then TrimStart(s[1..]) else s
  }

  /** `s` with its trailing whitespace removed. */
  function TrimEnd(s: string): string
    decreases |s|
  {
    if s != [] && IsWhitespace(s[|s| - 1]) then TrimEnd(s[..|s| - 1]) else s
  }

  /** `s.trim()`. */
  function Trim(s: string): string
  {
    TrimEnd(TrimStart(s))
  }

  /** `TrimStart` drops a whitespace-only prefix and stops at the first other character. */
  lemma {:induction false} TrimStartSpec(s: string)
    ensures var r := TrimStart(s);
      && |r| <= |s| && r == s[|s| - |r|..]
      && Blank(s[..|s| - |r|])
      && (r == [] || !IsWhitespace(r[0]))
    decreases |s|
  {
    if s != [] && IsWhitespace(s[0]) {
      TrimStartSpec(s[1..]);
      var r := TrimStart(s[1..]);
      assert s[..|s| - |r|] == [s[0]] + s[1..][..|s| - 1 - |r|];
    }
  }

  /** `TrimEnd` drops a whitespace-only suffix and stops at the last other character. */
  lemma {:induction false} TrimEndSpec(s: string)
    ensures var r := TrimEnd(s);
      && |r| <= |s| && r == s[..|r|]
      && Blank(s[|r|..])
      && (r == [] || !IsWhitespace(r[|r| - 1]))
    decreases |s|
  {
    if s != [] && IsWhitespace(s[|s| - 1]) {
      TrimEndSpec(s[..|s| - 1]);
      var r := TrimEnd(s[..|s| - 1]);
      assert s[|r|..] == s[..|s| - 1][|r|..] + [s[|s| - 1]];
    }
  }

  /** `s.trim()` is empty exactly when `s` is all whitespace. */
  lemma TrimEmptyIffBlank(s: string)
    ensures Trim(s) == [] <==> Blank(s)
  {
    var t := TrimStart(s);
    TrimStartSpec(s);
    TrimEndSpec(t);
    if Trim(s) == [] {
      assert Blank(t[0..]);
      assert s == s[..|s| - |t|] + t;
    } else {
      assert !IsWhitespace(Trim(s)[0]);
    }
  }

  /** Text with no whitespace at either end is left unchanged by `trim`. */
  lemma TrimUnchanged(s: string)
    requires s != [] && !IsWhitespace(s[0]) && !IsWhitespace(s[|s| - 1])
    ensures Trim(s) == s
  {
    assert TrimStart(s) == s;
  }

  /** The trimmed text has no whitespace at either end and lies inside `s`. */
  lemma TrimBounds(s: string)
    ensures Trim(s) == [] || (!IsWhitespace(Trim(s)[0]) && !IsWhitespace(Trim(s)[|Trim(s)| - 1]))
    ensures Includes(s, Trim(s))
  {
    var t := TrimStart(s);
    var r := TrimEnd(t);
    TrimStartSpec(s);
    TrimEndSpec(t);
    var i := |s| - |t|;
    assert s[i..i + |r|] == t[..|r|];
    assert OccursAt(s, r, i);
  }

  /**
   * `s.split("\n")`: the pieces between newlines, always at least one (the
   * last piece is what follows the last newline, possibly empty).
   */
  function Split(s: string): (parts: seq<string>)
    ensures |parts| >= 1
    ensures forall i :: 0 <= i < |parts| ==> '\n' !in parts[i]
    decreases |s|
  {
    if s == [] then
      [""]
    else
      var rest := Split(s[1..]);
      if s[0] == '\n' then
        [""] + rest
      else
        [[s[0]] + rest[0]] + rest[1..]
  }

  /** Round trip: the pieces of a split, rejoined with newlines, give back the text. */
  lemma {:induction false} UnlinesSplit(s: string)
    ensures var parts := Split(s); Unlines(parts[..|parts| - 1]) + parts[|parts| - 1] == s
    decreases |s|
  {
    if s != [] {
      UnlinesSplit(s[1..]);
      var rest := Split(s[1..]);
      if s[0] == '\n' {
        UnlinesSplitNewline(s, rest);
      } else {
        UnlinesSplitChar(s, rest);
      }
    }
  }

  lemma UnlinesSplitNewline(s: string, rest: seq<string>)
    requires s != [] && s[0] == '\n'
    requires rest == Split(s[1..])
    requires Unlines(rest[..|rest| - 1]) + rest[|rest| - 1] == s[1..]
    ensures var parts := Split(s); Unlines(parts[..|parts| - 1]) + parts[|parts| - 1] == s
  {
    var init := rest[..|rest| - 1];
    var parts := [""] + rest;
    assert Split(s) == parts;
    assert parts[..|parts| - 1] == [""] + init;
    assert ([""] + init)[1..] == init;
    assert Unlines([""] + init) == "\n" + Unlines(init);
    assert parts[|parts| - 1] == rest[|rest| - 1];
    assert s == "\n" + s[1..];
  }

  lemma UnlinesSplitChar(s: string, rest: seq<string>)
    requires s != [] && s[0] != '\n'
    requires rest == Split(s[1..])
    requires Unlines(rest[..|rest| - 1]) + rest[|rest| - 1] == s[1..]
    ensures var parts := Split(s); Unlines(parts[..|parts| - 1]) + parts[|parts| - 1] == s
  {
    var t, c := s[1..], s[0];
    var joined := [[c] + rest[0]] + rest[1..];
    assert Split(s) == joined by {
      SplitChar(s);
    }
    assert Unlines(joined[..|joined| - 1]) + joined[|joined| - 1] == s by {
      JoinExtendFirst(c, rest, t);
      assert [c] + t == s;
    }
  }

  lemma SplitChar(s: string)
    requires s != [] && s[0] != '\n'
    ensures Split(s) == [[s[0]] + Split(s[1..])[0]] + Split(s[1..])[1..]
  {
  }

  /** Prefixing a character to the first piece prefixes it to the rejoined text. */
  lemma JoinExtendFirst(c: char, pieces: seq<string>, t: string)
    requires |pieces| >= 1
    requires Unlines(pieces[..|pieces| - 1]) + pieces[|pieces| - 1] == t
    ensures var parts := [[c] + pieces[0]] + pieces[1..];
      Unlines(parts[..|parts| - 1]) + parts[|parts| - 1] == [c] + t
  {
    var parts := [[c] + pieces[0]] + pieces[1..];
    var init, pInit := parts[..|parts| - 1], pieces[..|pieces| - 1];
    if |pieces| == 1 {
      assert init == [] && pInit == [];
    } else {
      var u := Unlines(pInit[1..]);
      assert parts[|parts| - 1] == pieces[|pieces| - 1];
      assert init[1..] == pInit[1..];
      assert init[0] == [c] + pieces[0];
      assert Unlines(pInit) == pieces[0] + "\n" + u;
      assert Unlines(init) == ([c] + pieces[0]) + "\n" + u;
    }
  }

  /** Each line followed by a newline, all concatenated (the inverse of `Split`). */
  function Unlines(lines: seq<string>): string
  {
    if lines == [] then "" else lines[0] + "\n" + Unlines(lines[1..])
  }

  lemma {:induction false} UnlinesAppend(a: seq<string>, b: seq<string>)
    ensures Unlines(a + b) == Unlines(a) + Unlines(b)
    decreases |a|
  {
    if a == [] {
      assert a + b == b;
    } else {
      assert (a + b)[1..] == a[1..] + b;
      UnlinesAppend(a[1..], b);
    }
  }

  /** `w` has no newline: splitting `w + t` extends the first piece of `t`'s split. */
  lemma {:induction false} SplitPrefix(w: string, t: string)
    requires '\n' !in w
    ensures Split(w + t) == [w + Split(t)[0]] + Split(t)[1..]
    decreases |w|
  {
    if w != [] {
      assert (w + t)[1..] == w[1..] + t;
      SplitPrefix(w[1..], t);
      assert [w[0]] + (w[1..] + Split(t)[0]) == w + Split(t)[0];
    } else {
      var p := Split(t);
      assert w + t == t;
      assert w + p[0] == p[0];
      assert p == [p[0]] + p[1..];
    }
  }

  lemma SplitNewline(rest: string)
    ensures Split("\n" + rest) == [""] + Split(rest)
  {
    assert ("\n" + rest)[1..] == rest;
  }

  /**
   * Round trip: newline-free lines terminated by newlines and followed by a
   * newline-free tail split back into exactly those lines and that tail.
   */
  lemma {:induction false} SplitUnlines(lines: seq<string>, tail: string)
    requires forall i :: 0 <= i < |lines| ==> '\n' !in lines[i]
    requires '\n' !in tail
    ensures Split(Unlines(lines) + tail) == lines + [tail]
    decreases |lines|
  {
    if lines == [] {
      assert Unlines(lines) + tail == tail + "";
      SplitPrefix(tail, "");
      assert Split("") == [""];
      assert tail + "" == tail;
    } else {
      var rest := Unlines(lines[1..]) + tail;
      assert Unlines(lines) + tail == lines[0] + ("\n" + rest);
      SplitPrefix(lines[0], "\n" + rest);
      SplitNewline(rest);
      SplitUnlines(lines[1..], tail);
      var p := Split("\n" + rest);
      assert p[0] == "" && p[1..] == lines[1..] + [tail];
      assert lines[0] + p[0] == lines[0];
      assert lines + [tail] == [lines[0]] + (lines[1..] + [tail]);
    }
  }
}
