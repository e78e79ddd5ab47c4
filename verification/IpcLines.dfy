/**
The line format of the configuration protocol described under "Configuration Protocol" in
WireGuard's "Cross-platform Userspace Implementation": every line is key=value.
*/
module IpcLines {
  import opened Wrappers
  import opened Text

  datatype Pair = Pair(key: string, value: string)

  /** A setting that is written as one line when it has a text, and not at all otherwise. */
  datatype Field = Field(name: string, text: Option<string>)

  function Line(p: Pair): string {
    p.key + "=" + p.value
  }

  function Render(pairs: seq<Pair>): string {
    if pairs == [] then "" else Line(pairs[0]) + "\n" + Render(pairs[1..])
  }

  /** The lines of a list of fields, in order, one per present field. */
  function Present(fields: seq<Field>): seq<Pair> {
    if fields == [] then []
    else (if fields[0].text.Some? then [Pair(fields[0].name, fields[0].text.value)] else []) + Present(fields[1..])
  }

  predicate CleanKey(key: string) {
    '=' !in key && '\n' !in key
  }

  /** The pair occupies exactly one line. */
  predicate Clean(p: Pair) {
    CleanKey(p.key) && '\n' !in p.value
  }

  predicate AllClean(pairs: seq<Pair>) {
    forall i :: 0 <= i < |pairs| ==> Clean(pairs[i])
  }

  // ---------------------------------------------------------------- an independent reader

  function ReadLine(line: string): Option<Pair> {
    var kv :- SplitFirst(line, '=');
    Some(Pair(kv.0, kv.1))
  }

  /** Lines up to the empty one that a final newline leaves. */
  function ReadLines(lines: seq<string>): Option<seq<Pair>> {
    if lines == [] then None
    else if |lines| == 1 then (if lines[0] == "" then Some([]) else None)
    else
      var first :- ReadLine(lines[0]);
      var rest :- ReadLines(lines[1..]);
      Some([first] + rest)
  }

  function ReadPairs(text: string): Option<seq<Pair>> {
    ReadLines(Split(text, '\n'))
  }

  /** The value set last for `key`. */
  function Lookup(pairs: seq<Pair>, key: string): Option<string> {
    if pairs == [] then None
    else
      var rest := Lookup(pairs[1..], key);
      if rest.Some? then rest else if pairs[0].key == key then Some(pairs[0].value) else None
  }

  // ---------------------------------------------------------------- round trips

  lemma LineRoundTrip(p: Pair)
    requires Clean(p)
    ensures ReadLine(Line(p)) == Some(p) && '\n' !in Line(p)
  {
    SplitFirstAt(p.key, '=', p.value);
  }

  lemma ReadLinesCons(p: Pair, lines: seq<string>, rest: seq<Pair>)
    requires Clean(p) && lines != [] && ReadLines(lines) == Some(rest)
    ensures ReadLines([Line(p)] + lines) == Some([p] + rest)
  {
    LineRoundTrip(p);
    assert ([Line(p)] + lines)[1..] == lines;
  }

  lemma {:induction false} ReadRender(pairs: seq<Pair>)
    requires AllClean(pairs)
    ensures ReadPairs(Render(pairs)) == Some(pairs)
  {
    if pairs != [] {
      var line, rest := Line(pairs[0]), Render(pairs[1..]);
      LineRoundTrip(pairs[0]);
      ReadRender(pairs[1..]);
      assert Render(pairs) == line + ['\n'] + rest;
      SplitAppend(line, '\n', rest);
      SplitFree(line, '\n');
      ReadLinesCons(pairs[0], Split(rest, '\n'), pairs[1..]);
      assert pairs == [pairs[0]] + pairs[1..];
    }
  }

  lemma {:induction false} ReadLinesClean(lines: seq<string>)
    requires ReadLines(lines).Some? && forall i :: 0 <= i < |lines| ==> '\n' !in lines[i]
    ensures AllClean(ReadLines(lines).value)
  {
    if |lines| > 1 {
      ReadLinesClean(lines[1..]);
    }
  }

  /** Whatever a text says, no key or value read from it spans a line. */
  lemma ReadPairsClean(text: string)
    requires ReadPairs(text).Some?
    ensures AllClean(ReadPairs(text).value)
  {
    ReadLinesClean(Split(text, '\n'));
  }

  lemma {:induction false} RenderAppend(a: seq<Pair>, b: seq<Pair>)
    ensures Render(a + b) == Render(a) + Render(b)
  {
    if a == [] {
      assert a + b == b;
    } else {
      assert (a + b)[1..] == a[1..] + b;
      RenderAppend(a[1..], b);
    }
  }

  lemma PresentFirst(fields: seq<Field>)
    requires fields != []
    ensures fields[0].text.None? ==> Present(fields) == Present(fields[1..])
    ensures fields[0].text.Some? ==>
      Present(fields) == [Pair(fields[0].name, fields[0].text.value)] + Present(fields[1..])
  {
  }

  lemma {:induction false} PresentAppend(a: seq<Field>, b: seq<Field>)
    ensures Present(a + b) == Present(a) + Present(b)
  {
    if a == [] {
      assert a + b == b;
    } else {
      assert (a + b)[1..] == a[1..] + b;
      PresentAppend(a[1..], b);
      PresentFirst(a);
      PresentFirst(a + b);
      if a[0].text.Some? {
        AppendAssoc([Pair(a[0].name, a[0].text.value)], Present(a[1..]), Present(b));
      }
    }
  }

  lemma {:induction false} LookupAppend(a: seq<Pair>, b: seq<Pair>, key: string)
    ensures Lookup(a + b, key) == if Lookup(b, key).Some? then Lookup(b, key) else Lookup(a, key)
  {
    if a == [] {
      assert a + b == b;
    } else {
      assert (a + b)[1..] == a[1..] + b;
      LookupAppend(a[1..], b, key);
    }
  }

  lemma {:induction false} LookupMissing(fields: seq<Field>, key: string)
    requires forall i :: 0 <= i < |fields| ==> fields[i].name != key
    ensures Lookup(Present(fields), key) == None
  {
    if fields != [] {
      LookupMissing(fields[1..], key);
      PresentFirst(fields);
      if fields[0].text.Some? {
        LookupAppend([Pair(fields[0].name, fields[0].text.value)], Present(fields[1..]), key);
      }
    }
  }

  predicate DistinctNames(fields: seq<Field>) {
    forall i, j :: 0 <= i < j < |fields| ==> fields[i].name != fields[j].name
  }

  /** Each field's line is found under its name, and only when the field is present. */
  lemma {:induction false} LookupPresent(fields: seq<Field>, i: nat)
    requires DistinctNames(fields) && i < |fields|
    ensures Lookup(Present(fields), fields[i].name) == fields[i].text
  {
    if i == 0 {
      LookupMissing(fields[1..], fields[0].name);
    } else {
      LookupPresent(fields[1..], i - 1);
    }
    PresentFirst(fields);
    if fields[0].text.Some? {
      LookupAppend([Pair(fields[0].name, fields[0].text.value)], Present(fields[1..]), fields[i].name);
    }
  }
}
