/** The string operations of Go's `strings` package that the source uses, on sequences of characters. */
module Text {
  import opened Wrappers

  // ---------------------------------------------------------------- Split and Join

  /** strings.Split with a one-character separator: never empty, `sep` occurs in no part. */
  function Split(s: string, sep: char): (parts: seq<string>)
    ensures parts != []
    ensures forall i :: 0 <= i < |parts| ==> sep !in parts[i]
  {
    if s == "" then [""]
    else
      var rest := Split(s[1..], sep);
      if s[0] == sep then [""] + rest else [[s[0]] + rest[0]] + rest[1..]
  }

  function Join(parts: seq<string>, sep: char): string {
    if parts == [] then "" else
    if |parts| == 1 then parts[0] else parts[0] + [sep] + Join(parts[1..], sep)
  }

  lemma {:induction false} SplitFree(s: string, sep: char)
    requires sep !in s
    ensures Split(s, sep) == [s]
  {
    if s != "" {
      SplitFree(s[1..], sep);
      assert [s[0]] + s[1..] == s;
    }
  }

  /** Splitting at one separator and then the two sides is splitting the whole. */
  lemma {:induction false} SplitAppend(a: string, sep: char, b: string)
    ensures Split(a + [sep] + b, sep) == Split(a, sep) + Split(b, sep)
  {
    var s := a + [sep] + b;
    if a == "" {
      assert s[1..] == b;
    } else {
      SplitAppend(a[1..], sep, b);
      assert s[0] == a[0] && s[1..] == a[1..] + [sep] + b;
      PushFront(a[0], Split(a[1..], sep), Split(b, sep));
    }
  }

  lemma PushFront(c: char, left: seq<string>, right: seq<string>)
    requires left != []
    ensures [""] + (left + right) == [""] + left + right
    ensures [[c] + (left + right)[0]] + (left + right)[1..] == [[c] + left[0]] + left[1..] + right
  {
    assert (left + right)[1..] == left[1..] + right;
  }

  lemma {:induction false} SplitJoin(parts: seq<string>, sep: char)
    requires parts != [] && forall i :: 0 <= i < |parts| ==> sep !in parts[i]
    ensures Split(Join(parts, sep), sep) == parts
  {
    SplitFree(parts[0], sep);
    if |parts| > 1 {
      SplitAppend(parts[0], sep, Join(parts[1..], sep));
      SplitJoin(parts[1..], sep);
    }
  }

  lemma {:induction false} JoinSplit(s: string, sep: char)
    ensures Join(Split(s, sep), sep) == s
  {
    if s != "" {
      JoinSplit(s[1..], sep);
      var rest := Split(s[1..], sep);
      if s[0] != sep && |rest| > 1 {
        assert ([[s[0]] + rest[0]] + rest[1..])[1..] == rest[1..];
      }
    }
  }

  // ---------------------------------------------------------------- SplitN(s, sep, 2)

  /** The two sides of the first `sep`, or None when there is none. */
  function SplitFirst<T(==)>(s: seq<T>, sep: T): (r: Option<(seq<T>, seq<T>)>)
    ensures r.Some? <==> sep in s
    ensures r.Some? ==> s == r.value.0 + [sep] + r.value.1 && sep !in r.value.0
  {
    if s == [] then None
    else if s[0] == sep then Some(([], s[1..]))
    else
      var r := SplitFirst(s[1..], sep);
      if r.None? then None else Some(([s[0]] + r.value.0, r.value.1))
  }

  lemma {:induction false} SplitFirstAt<T>(a: seq<T>, sep: T, b: seq<T>)
    requires sep !in a
    ensures SplitFirst(a + [sep] + b, sep) == Some((a, b))
  {
    if a == [] {
      assert (a + [sep] + b)[1..] == b;
    } else {
      assert (a + [sep] + b)[1..] == a[1..] + [sep] + b;
      SplitFirstAt(a[1..], sep, b);
      assert a == [a[0]] + a[1..];
    }
  }

  predicate NoNewline(s: string) {
    '\n' !in s
  }

  lemma NoNewlineAppend(a: string, b: string)
    ensures NoNewline(a + b) <==> NoNewline(a) && NoNewline(b)
  {
    assert forall i :: 0 <= i < |b| ==> b[i] == (a + b)[|a| + i];
  }

  // ---------------------------------------------------------------- TrimSpace

  /** unicode.IsSpace. */
  predicate IsSpace(c: char) {
    || c == '\t' || c == '\n' || c == '\U{0B}' || c == '\U{0C}' || c == '\r' || c == ' '
    || c == '\U{85}' || c == '\U{A0}' || c == '\U{1680}' || '\U{2000}' <= c <= '\U{200A}'
    || c == '\U{2028}' || c == '\U{2029}' || c == '\U{202F}' || c == '\U{205F}' || c == '\U{3000}'
  }

  /** Among the ASCII characters, white space is tab, line feed, vertical tab, form feed, carriage return and space. */
  lemma AsciiSpaces(c: char)
    requires c as int < 128
    ensures IsSpace(c) <==> 9 <= c as int <= 13 || c as int == 32
  {
  }

  predicate AllSpace(s: string) {
    forall c :: c in s ==> IsSpace(c)
  }

  function TrimLeft(s: string): string {
    if s != "" && IsSpace(s[0]) then TrimLeft(s[1..]) else s
  }

  function TrimRight(s: string): string {
    if s != "" && IsSpace(s[|s| - 1]) then TrimRight(s[..|s| - 1]) else s
  }

  /** strings.TrimSpace. */
  function TrimSpace(s: string): string {
    TrimRight(TrimLeft(s))
  }

  /** Neither end is a space; true of the empty text. */
  predicate Trimmed(s: string) {
    s != "" ==> !IsSpace(s[0]) && !IsSpace(s[|s| - 1])
  }

  lemma {:induction false} TrimLeftSpaces(pre: string, s: string)
    requires AllSpace(pre)
    ensures TrimLeft(pre + s) == TrimLeft(s)
  {
    if pre == "" {
      assert pre + s == s;
    } else {
      assert (pre + s)[1..] == pre[1..] + s;
      TrimLeftSpaces(pre[1..], s);
    }
  }

  lemma {:induction false} TrimRightSpaces(s: string, post: string)
    requires AllSpace(post)
    ensures TrimRight(s + post) == TrimRight(s)
  {
    if post == "" {
      assert s + post == s;
    } else {
      assert (s + post)[..|s + post| - 1] == s + post[..|post| - 1];
      TrimRightSpaces(s, post[..|post| - 1]);
    }
  }

  /** Trimming removes exactly the spaces around a trimmed text. */
  lemma TrimSpaceAround(pre: string, s: string, post: string)
    requires AllSpace(pre) && AllSpace(post) && Trimmed(s)
    ensures TrimSpace(pre + s + post) == s
  {
    assert pre + s + post == pre + (s + post);
    TrimLeftSpaces(pre, s + post);
    if s == "" {
      assert s + post == post;
      TrimLeftSpaces(post, "");
      assert post + "" == post;
    } else {
      assert TrimLeft(s + post) == s + post;
      TrimRightSpaces(s, post);
    }
  }

  lemma AllSpaceCons(c: char, s: string)
    requires IsSpace(c) && AllSpace(s)
    ensures AllSpace([c] + s)
  {
  }

  lemma {:induction false} TrimLeftShape(s: string) returns (pre: string)
    ensures AllSpace(pre) && s == pre + TrimLeft(s)
    ensures TrimLeft(s) != "" ==> !IsSpace(TrimLeft(s)[0])
  {
    if s != "" && IsSpace(s[0]) {
      var rest := TrimLeftShape(s[1..]);
      pre := [s[0]] + rest;
      AllSpaceCons(s[0], rest);
      AppendAssoc([s[0]], rest, TrimLeft(s[1..]));
      assert s == [s[0]] + s[1..];
    } else {
      pre := "";
    }
  }

  lemma {:induction false} TrimRightShape(s: string)
    ensures TrimRight(s) <= s && AllSpace(s[|TrimRight(s)|..])
    ensures TrimRight(s) != "" ==> !IsSpace(TrimRight(s)[|TrimRight(s)| - 1])
  {
    if s != "" && IsSpace(s[|s| - 1]) {
      var t := s[..|s| - 1];
      TrimRightShape(t);
      assert s[|TrimRight(s)|..] == t[|TrimRight(t)|..] + [s[|s| - 1]];
    }
  }

  lemma TrimmedEnds(t: string)
    requires t != "" ==> !IsSpace(t[0])
    ensures Trimmed(TrimRight(t))
  {
    TrimRightShape(t);
  }

  /** Every text is its trimmed form with spaces around it. */
  lemma TrimSpaceShape(s: string) returns (pre: string, post: string)
    ensures AllSpace(pre) && AllSpace(post) && Trimmed(TrimSpace(s)) && s == pre + TrimSpace(s) + post
  {
    pre := TrimLeftShape(s);
    var t := TrimLeft(s);
    TrimRightShape(t);
    post := t[|TrimRight(t)|..];
    assert t == TrimRight(t) + post;
    AppendAssoc(pre, TrimRight(t), post);
    TrimmedEnds(t);
  }
}
