/** The comma-separated lists of the configuration (parseNetIP, parseCIDRNetIP, parseAllowedIPs in config.go). */
module CommaLists {
  import opened Wrappers
  import opened Text

  /** The items of a list of parts: blank parts are skipped, one unreadable part spoils the list. */
  function Items<T>(parse: string -> Option<T>, parts: seq<string>): Option<seq<T>> {
    if parts == [] then Some([]) else
    var before :- Items(parse, parts[..|parts| - 1]);
    var part := TrimSpace(parts[|parts| - 1]);
    if part == "" then Some(before) else
    var item :- parse(part);
    Some(before + [item])
  }

  function ListOf<T>(parse: string -> Option<T>, text: string): Option<seq<T>> {
    Items(parse, Split(text, ','))
  }

  lemma {:induction false} ItemsFail<T>(parse: string -> Option<T>, parts: seq<string>, n: nat)
    requires n <= |parts| && Items(parse, parts[..n]).None?
    ensures Items(parse, parts).None?
  {
    if n == |parts| {
      assert parts[..n] == parts;
    } else {
      assert parts[..|parts| - 1][..n] == parts[..n];
      ItemsFail(parse, parts[..|parts| - 1], n);
    }
  }

  /** The loop shared by the three list parsers. */
  method ParseList<T>(parse: string -> Option<T>, text: string) returns (r: Option<seq<T>>)
    ensures r == ListOf(parse, text)
  {
    var parts := Split(text, ',');
    var items: seq<T> := [];
    for i := 0 to |parts|
      invariant Items(parse, parts[..i]) == Some(items)
    {
      assert parts[..i + 1][..i] == parts[..i];
      var part := TrimSpace(parts[i]);
      if part != "" {
        var item := parse(part);
        if item.None? {
          ItemsFail(parse, parts, i + 1);
          return None;
        }
        items := items + [item.value];
      }
    }
    assert parts[..|parts|] == parts;
    return Some(items);
  }

  // ---------------------------------------------------------------- joining and parsing

  /** What stands between two commas: spaces only, or an item with spaces around it. */
  datatype Segment = Blank(spaces: string) | Item(before: string, item: string, after: string)

  function Spell(s: Segment): string {
    match s
    case Blank(spaces) => spaces
    case Item(before, item, after) => before + item + after
  }

  predicate Legal(s: Segment) {
    match s
    case Blank(spaces) => AllSpace(spaces)
    case Item(before, item, after) => AllSpace(before) && AllSpace(after) && item != "" && Trimmed(item) && ',' !in item
  }

  function SpellAll(segments: seq<Segment>): (parts: seq<string>)
    ensures |parts| == |segments| && forall i :: 0 <= i < |segments| ==> parts[i] == Spell(segments[i])
  {
    seq(|segments|, i requires 0 <= i < |segments| => Spell(segments[i]))
  }

  /** The items of the segments in order, if each of them is valid. */
  function Values<T>(parse: string -> Option<T>, segments: seq<Segment>): Option<seq<T>> {
    if segments == [] then Some([]) else
    var before :- Values(parse, segments[..|segments| - 1]);
    var last := segments[|segments| - 1];
    if last.Blank? then Some(before) else
    var item :- parse(last.item);
    Some(before + [item])
  }

  lemma SpellTrims(s: Segment)
    requires Legal(s)
    ensures ',' !in Spell(s)
    ensures TrimSpace(Spell(s)) == if s.Blank? then "" else s.item
  {
    match s
    case Blank(spaces) =>
      assert spaces + "" + "" == spaces;
      TrimSpaceAround(spaces, "", "");
    case Item(before, item, after) => TrimSpaceAround(before, item, after);
  }

  lemma {:induction false} ItemsOfSpelled<T>(parse: string -> Option<T>, segments: seq<Segment>)
    requires forall i :: 0 <= i < |segments| ==> Legal(segments[i])
    ensures Items(parse, SpellAll(segments)) == Values(parse, segments)
  {
    if segments != [] {
      var n := |segments| - 1;
      ItemsOfSpelled(parse, segments[..n]);
      assert SpellAll(segments)[..n] == SpellAll(segments[..n]);
      SpellTrims(segments[n]);
    }
  }

  /**
  Joining items with commas, any spaces and any blank segments, and parsing the text, gives exactly
  those items in order; a single invalid item makes the whole parse fail.
  */
  lemma JoinedListParses<T>(parse: string -> Option<T>, segments: seq<Segment>)
    requires segments != [] && forall i :: 0 <= i < |segments| ==> Legal(segments[i])
    ensures ListOf(parse, Join(SpellAll(segments), ',')) == Values(parse, segments)
  {
    forall i | 0 <= i < |segments| ensures ',' !in SpellAll(segments)[i] { SpellTrims(segments[i]); }
    SplitJoin(SpellAll(segments), ',');
    ItemsOfSpelled(parse, segments);
  }

  lemma {:induction false} ValuesFail<T>(parse: string -> Option<T>, segments: seq<Segment>)
    ensures Values(parse, segments).None? <==>
      exists i :: 0 <= i < |segments| && segments[i].Item? && parse(segments[i].item).None?
  {
    if segments != [] {
      var n := |segments| - 1;
      ValuesFail(parse, segments[..n]);
      if segments[n].Item? && parse(segments[n].item).None? {
        assert Values(parse, segments).None?;
      } else if Values(parse, segments[..n]).None? {
        var i :| 0 <= i < n && segments[..n][i].Item? && parse(segments[..n][i].item).None?;
        assert segments[i].Item?;
      } else {
        forall i | 0 <= i < |segments| && segments[i].Item? ensures parse(segments[i].item).Some? {
          if i < n { assert segments[..n][i] == segments[i]; }
        }
      }
    }
  }

  lemma PartIsASegment(part: string) returns (s: Segment)
    requires ',' !in part
    ensures Legal(s) && Spell(s) == part
  {
    var pre, post := TrimSpaceShape(part);
    var item := TrimSpace(part);
    if item == "" {
      assert part == pre + post;
      s := Blank(part);
    } else {
      s := Item(pre, item, post);
    }
  }

  lemma {:induction false} PartsAreSegments(parts: seq<string>) returns (segments: seq<Segment>)
    requires forall i :: 0 <= i < |parts| ==> ',' !in parts[i]
    ensures |segments| == |parts| && forall i :: 0 <= i < |parts| ==> Legal(segments[i]) && Spell(segments[i]) == parts[i]
  {
    if parts == [] {
      segments := [];
    } else {
      var n := |parts| - 1;
      var before := PartsAreSegments(parts[..n]);
      var last := PartIsASegment(parts[n]);
      segments := before + [last];
    }
  }

  /** Every text is such a join, so the law above covers every configuration value. */
  lemma EveryTextIsAJoin(text: string) returns (segments: seq<Segment>)
    ensures segments != [] && (forall i :: 0 <= i < |segments| ==> Legal(segments[i]))
    ensures text == Join(SpellAll(segments), ',')
  {
    var parts := Split(text, ',');
    JoinSplit(text, ',');
    segments := PartsAreSegments(parts);
    assert SpellAll(segments) == parts;
  }

  // ---------------------------------------------------------------- a list and its items

  /** The items of the segments that are not blank, in order. */
  function ItemsOf(segments: seq<Segment>): seq<string> {
    if segments == [] then [] else
    var before, last := ItemsOf(segments[..|segments| - 1]), segments[|segments| - 1];
    if last.Blank? then before else before + [last.item]
  }

  predicate AllLegal(segments: seq<Segment>) {
    segments != [] && forall i :: 0 <= i < |segments| ==> Legal(segments[i])
  }

  /** The i-th value is what the i-th item parses to. */
  predicate Parsed<T(==)>(parse: string -> Option<T>, items: seq<string>, values: seq<T>) {
    |values| == |items| && forall i :: 0 <= i < |items| ==> parse(items[i]) == Some(values[i])
  }

  lemma ParsedSnoc<T>(parse: string -> Option<T>, items: seq<string>, item: string, values: seq<T>)
    ensures Parsed(parse, items + [item], values) <==>
      values != [] && Parsed(parse, items, values[..|values| - 1]) && parse(item) == Some(values[|values| - 1])
  {
    if Parsed(parse, items + [item], values) {
      assert forall i :: 0 <= i < |items| ==> (items + [item])[i] == items[i];
      assert (items + [item])[|items|] == item;
    }
  }

  lemma {:induction false} ValuesExactly<T>(parse: string -> Option<T>, segments: seq<Segment>, values: seq<T>)
    ensures Values(parse, segments) == Some(values) <==> Parsed(parse, ItemsOf(segments), values)
  {
    if segments != [] {
      var n := |segments| - 1;
      if segments[n].Blank? {
        ValuesExactly(parse, segments[..n], values);
      } else {
        ParsedSnoc(parse, ItemsOf(segments[..n]), segments[n].item, values);
        if values != [] {
          ValuesExactly(parse, segments[..n], values[..|values| - 1]);
          assert values == values[..|values| - 1] + [values[|values| - 1]];
        }
        if Values(parse, segments) == Some(values) {
          var before := Values(parse, segments[..n]).value;
          assert values[..|values| - 1] == before;
        }
      }
    }
  }

  /** The text is a comma-separated list with any spaces and blank segments, and its items parse to the values. */
  ghost predicate ListSays<T>(parse: string -> Option<T>, text: string, values: seq<T>) {
    exists segments: seq<Segment> ::
      AllLegal(segments) && text == Join(SpellAll(segments), ',') && Parsed(parse, ItemsOf(segments), values)
  }

  /** A text is read as a list of values if and only if it is a list whose items parse to them. */
  lemma ListExactly<T>(parse: string -> Option<T>, text: string, values: seq<T>)
    ensures ListOf(parse, text) == Some(values) <==> ListSays(parse, text, values)
  {
    if ListOf(parse, text) == Some(values) {
      var segments := EveryTextIsAJoin(text);
      JoinedListParses(parse, segments);
      ValuesExactly(parse, segments, values);
      assert AllLegal(segments);
    }
    if ListSays(parse, text, values) {
      var segments: seq<Segment> :|
        AllLegal(segments) && text == Join(SpellAll(segments), ',') && Parsed(parse, ItemsOf(segments), values);
      JoinedListParses(parse, segments);
      ValuesExactly(parse, segments, values);
    }
  }

  function PlainSegments(items: seq<string>): (segments: seq<Segment>)
    ensures |segments| == |items| && forall i :: 0 <= i < |items| ==> segments[i] == Item("", items[i], "")
  {
    seq(|items|, i requires 0 <= i < |items| => Item("", items[i], ""))
  }

  lemma {:induction false} PlainItems(items: seq<string>)
    ensures ItemsOf(PlainSegments(items)) == items
  {
    if items != [] {
      var n := |items| - 1;
      PlainItems(items[..n]);
      assert PlainSegments(items)[..n] == PlainSegments(items[..n]);
      assert items == items[..n] + [items[n]];
    }
  }

  /** Items joined by commas alone: the i-th value is what the i-th item parses to. */
  lemma PlainList<T>(parse: string -> Option<T>, items: seq<string>, values: seq<T>)
    requires items != [] && forall i :: 0 <= i < |items| ==> items[i] != "" && Trimmed(items[i]) && ',' !in items[i]
    ensures ListOf(parse, Join(items, ',')) == Some(values) <==>
      |values| == |items| && forall i :: 0 <= i < |items| ==> parse(items[i]) == Some(values[i])
  {
    var segments := PlainSegments(items);
    forall i | 0 <= i < |items| ensures Legal(segments[i]) && Spell(segments[i]) == items[i] {
      assert "" + items[i] + "" == items[i];
    }
    assert SpellAll(segments) == items;
    JoinedListParses(parse, segments);
    ValuesExactly(parse, segments, values);
    PlainItems(items);
  }
}
