/** The /metrics filter of ServeHTTP in routine.go: the device dump with its secret values replaced. */
module Metrics {
  import opened Wrappers
  import opened Text

  const REDACTED := "REDACTED"

  predicate SecretKey(key: string) {
    key == "private_key" || key == "preshared_key"
  }

  /** The line as a reader should see it: a secret value replaced, everything else as it was. */
  function Redact(line: string): (r: string)
    ensures line != "" ==> r != ""
  {
    match SplitFirst(line, '=')
    case None => line
    case Some((key, value)) => key + "=" + (if SecretKey(key) then REDACTED else value)
  }

  /** What the loop writes for one line of the dump: the newline only after a key and value. */
  function Written(line: string): string {
    if '=' in line then Redact(line) + "\n" else line
  }

  function Body(lines: seq<string>): string {
    if lines == [] then "" else Written(lines[0]) + Body(lines[1..])
  }

  function Metrics(dump: string): string {
    Body(Split(dump, '\n'))
  }

  lemma {:induction false} BodySnoc(lines: seq<string>, line: string)
    ensures Body(lines + [line]) == Body(lines) + Written(line)
  {
    if lines == [] {
      assert lines + [line] == [line];
      assert Body([line][1..]) == "";
    } else {
      assert (lines + [line])[1..] == lines[1..] + [line];
      BodySnoc(lines[1..], line);
    }
  }

  /** One turn of the handler's loop. */
  method WriteLine(line: string) returns (out: string)
    ensures out == Written(line)
    ensures '=' !in line ==> out == line
    ensures '=' in line ==>
      out == (if "private_key=" <= line then "private_key=REDACTED"
              else if "preshared_key=" <= line then "preshared_key=REDACTED"
              else line) + "\n"
  {
    RedactExactly(line);
    var pair := SplitFirst(line, '=');
    if pair.None? {
      out := line;
    } else {
      var value := pair.value.1;
      if pair.value.0 == "private_key" || pair.value.0 == "preshared_key" {
        value := "REDACTED";
      }
      out := pair.value.0 + "=" + value + "\n";
    }
  }

  /** The loop of the handler, line by line into a growing buffer. */
  method Filter(dump: string) returns (buf: string)
    ensures buf == Metrics(dump)
  {
    buf := "";
    var lines := Split(dump, '\n');
    for i := 0 to |lines|
      invariant buf == Body(lines[..i])
    {
      var out := WriteLine(lines[i]);
      buf := buf + out;
      BodySnoc(lines[..i], lines[i]);
      assert lines[..i] + [lines[i]] == lines[..i + 1];
    }
    assert lines[..|lines|] == lines;
  }

  // ---------------------------------------------------------------- what a line becomes

  /** A key keeps its value, which may itself contain '=', unless it is one of the two secret keys. */
  lemma RedactPair(key: string, value: string)
    requires '=' !in key
    ensures Redact(key + "=" + value) == key + "=" + (if SecretKey(key) then REDACTED else value)
  {
    SplitFirstAt(key, '=', value);
  }

  lemma RedactTwice(line: string)
    ensures Redact(Redact(line)) == Redact(line)
    ensures '=' in Redact(line) <==> '=' in line
    ensures '\n' !in line ==> '\n' !in Redact(line)
  {
    match SplitFirst(line, '=')
    case None =>
    case Some((key, value)) =>
      RedactPair(key, value);
      RedactPair(key, if SecretKey(key) then REDACTED else value);
  }

  // ---------------------------------------------------------------- what the body keeps

  function NonEmpty(lines: seq<string>): seq<string> {
    if lines == [] then []
    else (if lines[0] == "" then [] else [lines[0]]) + NonEmpty(lines[1..])
  }

  function RedactAll(lines: seq<string>): (r: seq<string>)
    ensures |r| == |lines| && forall i :: 0 <= i < |lines| ==> r[i] == Redact(lines[i])
  {
    seq(|lines|, i requires 0 <= i < |lines| => Redact(lines[i]))
  }

  /** No line without '=' is followed by another nonempty line. */
  predicate NothingMerges(lines: seq<string>) {
    if lines == [] then true
    else (lines[0] == "" || '=' in lines[0] || NonEmpty(lines[1..]) == []) && NothingMerges(lines[1..])
  }

  lemma {:induction false} SplitAfterPrefix(x: string, y: string, sep: char)
    requires sep !in x
    ensures Split(x + y, sep) == [x + Split(y, sep)[0]] + Split(y, sep)[1..]
  {
    if x == "" {
      assert x + y == y;
      assert "" + Split(y, sep)[0] == Split(y, sep)[0];
    } else {
      assert (x + y)[1..] == x[1..] + y;
      SplitAfterPrefix(x[1..], y, sep);
      assert [x[0]] + (x[1..] + Split(y, sep)[0]) == x + Split(y, sep)[0];
    }
  }

  predicate LineFree(lines: seq<string>) {
    forall i :: 0 <= i < |lines| ==> '\n' !in lines[i]
  }

  /** The body of lines that are all empty is empty, and otherwise it does not start with a newline. */
  lemma {:induction false} BodyStart(lines: seq<string>)
    requires LineFree(lines)
    ensures NonEmpty(lines) == [] ==> Body(lines) == ""
    ensures NonEmpty(lines) != [] ==> Split(Body(lines), '\n')[0] != ""
  {
    if lines != [] {
      BodyStart(lines[1..]);
      var line := lines[0];
      if line == "" {
        assert Written(line) + Body(lines[1..]) == Body(lines[1..]);
      } else {
        RedactTwice(line);
        assert Body(lines)[0] != '\n';
      }
    }
  }

  lemma BodyOfPair(line: string, rest: seq<string>)
    requires '=' in line && '\n' !in line
    ensures Split(Body([line] + rest), '\n') == [Redact(line)] + Split(Body(rest), '\n')
  {
    RedactTwice(line);
    SplitAppend(Redact(line), '\n', Body(rest));
    SplitFree(Redact(line), '\n');
    assert ([line] + rest)[1..] == rest;
    assert Body([line] + rest) == Redact(line) + ['\n'] + Body(rest);
  }

  /** The body never has more nonempty lines than the dump, and has the same ones exactly when nothing merges. */
  lemma {:induction false} BodyLines(lines: seq<string>)
    requires LineFree(lines)
    ensures NothingMerges(lines) ==> NonEmpty(Split(Body(lines), '\n')) == RedactAll(NonEmpty(lines))
    ensures |NonEmpty(Split(Body(lines), '\n'))| <= |NonEmpty(lines)|
    ensures !NothingMerges(lines) ==> |NonEmpty(Split(Body(lines), '\n'))| < |NonEmpty(lines)|
  {
    if lines == [] {
      assert NonEmpty([""]) == [] + NonEmpty([""][1..]);
    } else {
      var line, rest := lines[0], lines[1..];
      assert lines == [line] + rest;
      BodyLines(rest);
      if line == "" {
        assert Body(lines) == Body(rest);
        assert NonEmpty(lines) == NonEmpty(rest);
      } else if '=' in line {
        BodyOfPair(line, rest);
        NonEmptyCons(Redact(line), Split(Body(rest), '\n'));
        RedactAllCons(line, NonEmpty(rest));
      } else {
        BodyLinesPlain(line, rest);
      }
    }
  }

  lemma NonEmptyCons(line: string, rest: seq<string>)
    ensures NonEmpty([line] + rest) == (if line == "" then [] else [line]) + NonEmpty(rest)
  {
    assert ([line] + rest)[1..] == rest;
  }

  lemma RedactAllCons(line: string, rest: seq<string>)
    ensures RedactAll([line] + rest) == [Redact(line)] + RedactAll(rest)
  {
  }

  /** A nonempty line without '=' runs into the line after it. */
  lemma BodyLinesPlain(line: string, rest: seq<string>)
    requires line != "" && '=' !in line && '\n' !in line && LineFree(rest)
    requires |NonEmpty(Split(Body(rest), '\n'))| <= |NonEmpty(rest)|
    ensures var after := NonEmpty(Split(Body([line] + rest), '\n'));
      if NonEmpty(rest) == [] then after == [line] else |after| < |NonEmpty([line] + rest)|
  {
    var tail := Split(Body(rest), '\n');
    assert ([line] + rest)[1..] == rest;
    SplitAfterPrefix(line, Body(rest), '\n');
    BodyStart(rest);
    NonEmptyCons(line + tail[0], tail[1..]);
    NonEmptyCons(tail[0], tail[1..]);
    NonEmptyCons(line, rest);
    assert tail == [tail[0]] + tail[1..];
    if NonEmpty(rest) == [] {
      assert tail == [""];
      assert line + "" == line;
    }
  }

  /**
  The body shows exactly the nonempty lines of the dump, in order and redacted, if and only if no
  line without '=' comes before another nonempty line.
  */
  lemma BodyKeepsLinesExactly(dump: string)
    ensures NonEmpty(Split(Metrics(dump), '\n')) == RedactAll(NonEmpty(Split(dump, '\n')))
       <==> NothingMerges(Split(dump, '\n'))
  {
    BodyLines(Split(dump, '\n'));
  }

  lemma TwoLineDump(a: string, line: string)
    requires '\n' !in a && '\n' !in line
    ensures Split(a + "\n" + (line + "\n" + ""), '\n') == [a, line, ""]
  {
    SplitFree(a, '\n');
    SplitFree(line, '\n');
    SplitFree("", '\n');
    SplitAppend(line, '\n', "");
    SplitAppend(a, '\n', line + "\n" + "");
  }

  lemma TwoLineBody(a: string, line: string)
    ensures Body([a, line, ""]) == Written(a) + Written(line)
    ensures NonEmpty([line, ""]) == (if line == "" then [] else [line])
  {
    assert [a, line, ""][1..] == [line, ""] && [line, ""][1..] == [""] && [""][1..] == [];
    assert Body([""]) == "" && NonEmpty([""]) == [];
  }

  /** A line without '=' swallows the line after it: the two come out as one. */
  lemma LinesMerge(a: string, line: string)
    requires '\n' !in a && '=' !in a && a != "" && '\n' !in line && '=' in line
    ensures Metrics(a + "\n" + (line + "\n" + "")) == a + (Redact(line) + "\n")
    ensures !NothingMerges(Split(a + "\n" + (line + "\n" + ""), '\n'))
  {
    TwoLineDump(a, line);
    TwoLineBody(a, line);
    assert [a, line, ""][1..] == [line, ""];
    assert SplitFirst(a, '=').None?;
  }

  /** For instance "a" and "b=1". */
  lemma LinesMergeExample()
    ensures Metrics("a" + "\n" + ("b=1" + "\n" + "")) == "ab=1" + "\n"
  {
    RedactPair("b", "1");
    LinesMerge("a", "b=1");
    assert "a" + ("b=1" + "\n") == "ab=1" + "\n";
  }

  /** Every nonempty line is a key and a value, as the device writes them. */
  predicate WellFormed(lines: seq<string>) {
    forall i :: 0 <= i < |lines| ==> lines[i] == "" || '=' in lines[i]
  }

  lemma WellFormedPair(line: string, rest: seq<string>)
    requires '=' in line && '\n' !in line
    requires Split(Body(rest), '\n') == RedactAll(NonEmpty(rest)) + [""]
    ensures Split(Body([line] + rest), '\n') == RedactAll(NonEmpty([line] + rest)) + [""]
  {
    calc {
      Split(Body([line] + rest), '\n');
    == { BodyOfPair(line, rest); }
      [Redact(line)] + (RedactAll(NonEmpty(rest)) + [""]);
    == { AppendAssoc([Redact(line)], RedactAll(NonEmpty(rest)), [""]); }
      [Redact(line)] + RedactAll(NonEmpty(rest)) + [""];
    == { RedactAllCons(line, NonEmpty(rest)); }
      RedactAll([line] + NonEmpty(rest)) + [""];
    == { NonEmptyCons(line, rest); }
      RedactAll(NonEmpty([line] + rest)) + [""];
    }
  }

  lemma {:induction false} WellFormedBody(lines: seq<string>)
    requires LineFree(lines) && WellFormed(lines)
    ensures Split(Body(lines), '\n') == RedactAll(NonEmpty(lines)) + [""]
  {
    if lines != [] {
      var line, rest := lines[0], lines[1..];
      assert lines == [line] + rest;
      WellFormedBody(rest);
      if line == "" {
        NonEmptyCons(line, rest);
        assert Body(lines) == Body(rest);
      } else {
        WellFormedPair(line, rest);
      }
    }
  }

  lemma {:induction false} BodyOfRedacted(lines: seq<string>)
    requires WellFormed(lines)
    ensures Body(RedactAll(lines) + [""]) == Body(lines)
  {
    if lines == [] {
      assert RedactAll(lines) + [""] == [""];
      assert Body([""]) == Written("") + Body([""][1..]);
    } else {
      RedactTwice(lines[0]);
      assert lines == [lines[0]] + lines[1..];
      RedactAllCons(lines[0], lines[1..]);
      assert (RedactAll(lines) + [""])[1..] == RedactAll(lines[1..]) + [""];
      BodyOfRedacted(lines[1..]);
    }
  }

  lemma {:induction false} BodyOfNonEmpty(lines: seq<string>)
    ensures Body(NonEmpty(lines)) == Body(lines)
  {
    if lines != [] {
      BodyOfNonEmpty(lines[1..]);
      if lines[0] == "" {
        assert NonEmpty(lines) == NonEmpty(lines[1..]);
        assert Body(lines) == "" + Body(lines[1..]) == Body(lines[1..]);
      } else {
        assert NonEmpty(lines)[1..] == NonEmpty(lines[1..]);
      }
    }
  }

  lemma {:induction false} NonEmptyWellFormed(lines: seq<string>)
    requires WellFormed(lines)
    ensures WellFormed(NonEmpty(lines))
  {
    if lines != [] {
      NonEmptyWellFormed(lines[1..]);
    }
  }

  /** Filtering the filtered dump changes nothing. */
  lemma MetricsTwice(dump: string)
    requires WellFormed(Split(dump, '\n'))
    ensures Metrics(Metrics(dump)) == Metrics(dump)
  {
    var lines := Split(dump, '\n');
    WellFormedBody(lines);
    NonEmptyWellFormed(lines);
    BodyOfRedacted(NonEmpty(lines));
    BodyOfNonEmpty(lines);
  }

  // ---------------------------------------------------------------- what is hidden

  lemma RedactPrefixed(key: string, line: string)
    requires '=' !in key && key + "=" <= line
    ensures Redact(line) == if key == "private_key" || key == "preshared_key" then key + "=" + "REDACTED" else line
  {
    var value := line[|key| + 1..];
    assert line == key + "=" + value;
    RedactPair(key, value);
  }

  lemma SecretTexts()
    ensures "private_key" + "=" == "private_key=" && "private_key" + "=" + "REDACTED" == "private_key=REDACTED"
    ensures "preshared_key" + "=" == "preshared_key=" && "preshared_key" + "=" + "REDACTED" == "preshared_key=REDACTED"
    ensures '=' !in "private_key" && '=' !in "preshared_key"
  {
  }

  lemma RedactOther(line: string)
    requires !("private_key=" <= line) && !("preshared_key=" <= line)
    ensures Redact(line) == line
  {
    SecretTexts();
    if '=' in line { RedactPrefixed(SplitFirst(line, '=').value.0, line); }
  }

  /** The value of private_key and of preshared_key is replaced by REDACTED, and every other line stays. */
  lemma RedactExactly(line: string)
    ensures Redact(line) == if "private_key=" <= line then "private_key=REDACTED"
                            else if "preshared_key=" <= line then "preshared_key=REDACTED"
                            else line
  {
    SecretTexts();
    if "private_key=" <= line {
      RedactPrefixed("private_key", line);
    } else if "preshared_key=" <= line {
      RedactPrefixed("preshared_key", line);
    } else {
      RedactOther(line);
    }
  }

  /**
  For every well-formed dump: the body has one line per nonempty line of the dump, in order, and a
  last empty one; a line of private_key or preshared_key shows REDACTED, every other line is shown
  as it is.
  */
  lemma SecretsHidden(dump: string)
    requires WellFormed(Split(dump, '\n'))
    ensures var lines, shown := NonEmpty(Split(dump, '\n')), Split(Metrics(dump), '\n');
      |shown| == |lines| + 1 && shown[|lines|] == "" &&
      forall i :: 0 <= i < |lines| ==>
        shown[i] == if "private_key=" <= lines[i] then "private_key=REDACTED"
                    else if "preshared_key=" <= lines[i] then "preshared_key=REDACTED"
                    else lines[i]
  {
    WellFormedBody(Split(dump, '\n'));
    var lines := NonEmpty(Split(dump, '\n'));
    forall i | 0 <= i < |lines|
      ensures RedactAll(lines)[i] == if "private_key=" <= lines[i] then "private_key=REDACTED"
                                     else if "preshared_key=" <= lines[i] then "preshared_key=REDACTED"
                                     else lines[i]
    {
      RedactExactly(lines[i]);
    }
  }

  /** Lines that are not blank are all kept. */
  lemma {:induction false} NonEmptyOfAll(lines: seq<string>)
    requires forall i :: 0 <= i < |lines| ==> lines[i] != ""
    ensures NonEmpty(lines) == lines && NonEmpty(lines + [""]) == lines
  {
    if lines == [] {
      assert lines + [""] == [""] && [""][1..] == [];
    } else {
      NonEmptyOfAll(lines[1..]);
      assert (lines + [""])[1..] == lines[1..] + [""];
      assert lines == [lines[0]] + lines[1..];
    }
  }
}
