/**
  What the reader of initialisation files recognises, told from the characters of its patterns: which lines are
  comments, headers and items, what a parsed file holds, and where a rewritten file differs from the old one.
 */
module IniReading {
  import opened Basics
  import opened IniFiles

  // ----- the alphabets

  const UPPER := "ABCDEFGHIJKLMNOPQRSTUVWXYZ"
  const LOWER := "abcdefghijklmnopqrstuvwxyz"
  const DIGITS := "0123456789"

  /** The characters of the pattern for names. */
  predicate InName(c: char)
  {
    c in UPPER || c in LOWER || c in DIGITS || c in "_-"
  }

  /** The characters of the pattern for groups. */
  predicate InGroup(c: char)
  {
    c in UPPER || c in LOWER || c in DIGITS || c in "/()+ :;,_.-"
  }

  predicate OverNames(s: string)
  {
    forall k :: 0 <= k < |s| ==> InName(s[k])
  }

  predicate OverGroups(s: string)
  {
    forall k :: 0 <= k < |s| ==> InGroup(s[k])
  }

  lemma UpperIs(c: char)
    ensures c in UPPER <==> 'A' <= c <= 'Z'
  {
    if 'A' <= c <= 'Z' {
      assert UPPER[c as int - 'A' as int] == c;
    }
  }

  lemma LowerIs(c: char)
    ensures c in LOWER <==> 'a' <= c <= 'z'
  {
    if 'a' <= c <= 'z' {
      assert LOWER[c as int - 'a' as int] == c;
    }
  }

  lemma DigitIs(c: char)
    ensures c in DIGITS <==> '0' <= c <= '9'
  {
    if '0' <= c <= '9' {
      assert DIGITS[c as int - '0' as int] == c;
    }
  }

  lemma AlphabetsAre(c: char)
    ensures InName(c) <==> IsNameChar(c)
    ensures InGroup(c) <==> IsGroupChar(c)
  {
    UpperIs(c);
    LowerIs(c);
    DigitIs(c);
    var signs, marks := "_-", "/()+ :;,_.-";
    assert c in signs <==> c == signs[0] || c == signs[1];
    assert forall k :: 0 <= k < |marks| ==> marks[k] in {'/', '(', ')', '+', ' ', ':', ';', ',', '_', '.', '-'};
    assert marks[0] == '/' && marks[1] == '(' && marks[2] == ')' && marks[3] == '+' && marks[4] == ' '
           && marks[5] == ':' && marks[6] == ';' && marks[7] == ',' && marks[8] == '_' && marks[9] == '.'
           && marks[10] == '-';
  }

  lemma LegalIs(s: string)
    ensures OverNames(s) <==> LegalName(s)
    ensures OverGroups(s) <==> LegalGroup(s)
  {
    forall k | 0 <= k < |s| ensures InName(s[k]) <==> IsNameChar(s[k]) {
      AlphabetsAre(s[k]);
    }
    forall k | 0 <= k < |s| ensures InGroup(s[k]) <==> IsGroupChar(s[k]) {
      AlphabetsAre(s[k]);
    }
  }

  // ----- lines

  function Spaces(n: nat): (s: string)
    ensures |s| == n && forall k :: 0 <= k < n ==> s[k] == ' '
  {
    seq(n, k => ' ')
  }

  /** A header: the group between brackets and nothing else. */
  predicate IsHeader(l: Line, g: string)
  {
    OverGroups(g) && l == "[" + g + "]"
  }

  /** A name, i spaces, an equals sign, j spaces and the value. */
  predicate IsWritten(l: Line, name: string, i: nat, j: nat, value: string)
  {
    && OverNames(name) && (value == "" || value[0] != ' ')
    && l == ((name + Spaces(i)) + "=") + (Spaces(j) + value)
  }

  ghost predicate IsItem(l: Line, name: string, value: string)
  {
    exists i: nat, j: nat :: IsWritten(l, name, i, j, value)
  }

  lemma Bracketed(l: Line, g: string)
    ensures l == "[" + g + "]"
       <==> |l| == |g| + 2 && l[0] == '[' && l[|l| - 1] == ']' && l[1..|l| - 1] == g
  {
    if |l| == |g| + 2 && l[0] == '[' && l[|l| - 1] == ']' && l[1..|l| - 1] == g {
      assert l == "[" + l[1..|l| - 1] + "]";
    }
  }

  /** The group pattern, for every line. */
  lemma HeaderIs(l: Line, g: string)
    ensures GroupOf(l) == Some(g) <==> IsHeader(l, g)
  {
    LegalIs(g);
    Bracketed(l, g);
  }

  /** Where the parts of an item's line are. */
  lemma PartsAt(name: string, i: nat, j: nat, value: string)
    ensures var l, k := ((name + Spaces(i)) + "=") + (Spaces(j) + value), |name| + i;
            && |l| == k + 1 + j + |value| && l[k] == '=' && l[..|name|] == name && l[k + 1 + j..] == value
            && (forall m :: 0 <= m < |name| ==> l[m] == name[m])
            && (forall m :: |name| <= m < k ==> l[m] == ' ')
            && (forall m :: k + 1 <= m < k + 1 + j ==> l[m] == ' ')
            && (value != "" ==> l[k + 1 + j] == value[0])
  {
    var front, back := name + Spaces(i), Spaces(j) + value;
    assert forall m :: 0 <= m < |front| ==> front[m] == if m < |name| then name[m] else ' ';
    assert forall m :: 0 <= m < |back| ==> back[m] == if m < j then ' ' else value[m - j];
    var l := (front + "=") + back;
    assert forall m :: 0 <= m < |front| ==> l[m] == front[m];
    assert forall m :: 0 <= m < |back| ==> l[|front| + 1 + m] == back[m];
    assert forall m :: |front| + 1 <= m < |l| ==> l[m] == back[m - (|front| + 1)];
  }

  /** A name up to n, spaces up to the sign at k and behind it up to v. */
  predicate PartsAre(l: Line, n: nat, k: nat, v: nat)
  {
    && n <= k < v <= |l| && l[k] == '=' && (forall m :: 0 <= m < n ==> IsNameChar(l[m]))
    && (forall m :: n <= m < k ==> l[m] == ' ') && (forall m :: k + 1 <= m < v ==> l[m] == ' ')
    && (v < |l| ==> l[v] != ' ')
  }

  /** What the pattern makes of the parts. */
  lemma PartsRead(l: Line, n: nat, k: nat, v: nat, name: string, value: string)
    requires PartsAre(l, n, k, v) && l[..n] == name && l[v..] == value
    ensures ItemOf(l) == Some(Item(name, value))
  {
    SpanIs(l, IsNameChar, 0, n);
    SpanIs(l, IsSpace, n, k);
    SpanIs(l, IsSpace, k + 1, v);
  }

  lemma WrittenParts(l: Line, name: string, i: nat, j: nat, value: string)
    requires IsWritten(l, name, i, j, value)
    ensures PartsAre(l, |name|, |name| + i, |name| + i + 1 + j)
    ensures l[..|name|] == name && l[|name| + i + 1 + j..] == value
  {
    LegalIs(name);
    PartsAt(name, i, j, value);
  }

  lemma WrittenReads(l: Line, name: string, i: nat, j: nat, value: string)
    requires IsWritten(l, name, i, j, value)
    ensures ItemOf(l) == Some(Item(name, value))
  {
    WrittenParts(l, name, i, j, value);
    PartsRead(l, |name|, |name| + i, |name| + i + 1 + j, name, value);
  }

  /** A line cut at its spaces and its equals sign. */
  lemma CutParts(l: Line, n: nat, k: nat, v: nat)
    requires n <= k < v <= |l| && l[k] == '='
    requires (forall m :: n <= m < k ==> l[m] == ' ') && forall m :: k + 1 <= m < v ==> l[m] == ' '
    ensures l == ((l[..n] + Spaces(k - n)) + "=") + (Spaces(v - (k + 1)) + l[v..])
  {
    var r := ((l[..n] + Spaces(k - n)) + "=") + (Spaces(v - (k + 1)) + l[v..]);
    PartsAt(l[..n], k - n, v - (k + 1), l[v..]);
    forall m | 0 <= m < |l| ensures l[m] == r[m] {
      if m >= v {
        assert l[m] == l[v..][m - v] == r[v + (m - v)];
      }
    }
  }

  lemma CutIsWritten(l: Line, n: nat, k: nat, v: nat)
    requires PartsAre(l, n, k, v)
    ensures IsWritten(l, l[..n], k - n, v - (k + 1), l[v..])
  {
    LegalIs(l[..n]);
    CutParts(l, n, k, v);
  }

  lemma ReadParts(l: Line) returns (n: nat, k: nat, v: nat)
    requires ItemOf(l).Some?
    ensures PartsAre(l, n, k, v) && ItemOf(l) == Some(Item(l[..n], l[v..]))
  {
    n := Span(l, IsNameChar, 0);
    k := Span(l, IsSpace, n);
    v := Span(l, IsSpace, k + 1);
  }

  lemma ReadIsWritten(l: Line, name: string, value: string)
    requires ItemOf(l) == Some(Item(name, value))
    ensures IsItem(l, name, value)
  {
    var n, k, v := ReadParts(l);
    CutIsWritten(l, n, k, v);
    assert IsWritten(l, name, k - n, v - (k + 1), value);
  }

  /** The item pattern, for every line: a name over the alphabet, spaces on both sides of the sign, and the value. */
  lemma ItemIs(l: Line, name: string, value: string)
    ensures ItemOf(l) == Some(Item(name, value)) <==> IsItem(l, name, value)
  {
    if ItemOf(l) == Some(Item(name, value)) {
      ReadIsWritten(l, name, value);
    }
    if i: nat, j: nat :| IsWritten(l, name, i, j, value) {
      WrittenReads(l, name, i, j, value);
    }
  }

  /** Blanks up to position n, and there the end of the line or a hash. */
  predicate CommentAt(l: Line, n: nat)
  {
    n <= |l| && (n == |l| || l[n] == '#') && forall k :: 0 <= k < n ==> l[k] == ' ' || l[k] == '\t'
  }

  /** The comment pattern, for every line. */
  lemma CommentIs(l: Line)
    ensures IsComment(l) <==> exists n: nat :: CommentAt(l, n)
  {
    if IsComment(l) {
      assert CommentAt(l, Span(l, IsBlank, 0));
    }
    if n: nat :| CommentAt(l, n) {
      SpanIs(l, IsBlank, 0, n);
    }
  }

  // ----- files

  /** The last header before line k is on line h. */
  ghost predicate InSection(lines: seq<Line>, h: nat, k: nat, g: string)
  {
    h < k <= |lines| && IsHeader(lines[h], g) && forall m, other :: h < m < k ==> !IsHeader(lines[m], other)
  }

  ghost predicate HasSection(lines: seq<Line>, k: nat, g: string)
  {
    exists h: nat :: InSection(lines, h, k, g)
  }

  /** Line k gives the item this value in a section of the group. */
  ghost predicate Gives(lines: seq<Line>, k: nat, g: string, name: string, value: string)
  {
    k < |lines| && IsItem(lines[k], name, value) && HasSection(lines, k, g)
  }

  lemma StepIs(l: Line, current: Option<string>)
    ensures forall g :: IsHeader(l, g) ==> StepGroup(l, current) == Some(g)
    ensures (forall g :: !IsHeader(l, g)) ==> StepGroup(l, current) == current
  {
    ClassifyAgrees(l);
    forall g ensures GroupOf(l) == Some(g) <==> IsHeader(l, g) {
      HeaderIs(l, g);
    }
    assert GroupOf(l).Some? ==> IsHeader(l, GroupOf(l).value);
  }

  lemma {:induction false} SectionIs(lines: seq<Line>, k: nat, g: string)
    requires k <= |lines|
    ensures SectionAt(lines, k) == Some(g) <==> HasSection(lines, k, g)
  {
    if k > 0 {
      SectionIs(lines, k - 1, g);
      SectionNext(lines, k - 1, lines[k - 1], g);
    }
  }

  lemma SectionNext(lines: seq<Line>, p: nat, l: Line, g: string)
    requires p < |lines| && l == lines[p]
    requires SectionAt(lines, p) == Some(g) <==> HasSection(lines, p, g)
    ensures SectionAt(lines, p + 1) == Some(g) <==> HasSection(lines, p + 1, g)
  {
    StepIs(l, SectionAt(lines, p));
    if other :| IsHeader(l, other) {
      SectionHere(lines, p, g, other);
    } else {
      SectionBefore(lines, p, l, g);
    }
  }

  lemma SectionHere(lines: seq<Line>, p: nat, g: string, other: string)
    requires p < |lines| && IsHeader(lines[p], other)
    ensures HasSection(lines, p + 1, g) <==> g == other
  {
    HeaderIs(lines[p], other);
    HeaderIs(lines[p], g);
    if HasSection(lines, p + 1, g) {
      var h: nat :| InSection(lines, h, p + 1, g);
      assert h == p;
    }
    if g == other {
      assert InSection(lines, p, p + 1, g);
    }
  }

  lemma SectionBefore(lines: seq<Line>, p: nat, l: Line, g: string)
    requires p < |lines| && l == lines[p] && forall other :: !IsHeader(l, other)
    ensures HasSection(lines, p + 1, g) <==> HasSection(lines, p, g)
  {
    if HasSection(lines, p + 1, g) {
      var h: nat :| InSection(lines, h, p + 1, g);
      assert InSection(lines, h, p, g);
    }
    if HasSection(lines, p, g) {
      var h: nat :| InSection(lines, h, p, g);
      assert InSection(lines, h, p + 1, g);
    }
  }

  lemma DefinedIs(lines: seq<Line>, k: nat, g: string, name: string, value: string)
    requires k < |lines|
    ensures DefinedAt(lines, k, g, name) == Some(value) <==> Gives(lines, k, g, name, value)
  {
    ClassifyAgrees(lines[k]);
    ItemIs(lines[k], name, value);
    SectionIs(lines, k, g);
  }

  lemma {:induction false} FirstIs(lines: seq<Line>, from: nat, g: string, name: string) returns (k: nat)
    requires from <= |lines|
    ensures from <= k <= |lines| && forall j :: from <= j < k ==> DefinedAt(lines, j, g, name).None?
    ensures FirstDefinition(lines, from, g, name) == if k < |lines| then DefinedAt(lines, k, g, name) else None
    ensures k < |lines| ==> DefinedAt(lines, k, g, name).Some?
    decreases |lines| - from
  {
    if from == |lines| || DefinedAt(lines, from, g, name).Some? {
      k := from;
    } else {
      k := FirstIs(lines, from + 1, g, name);
    }
  }

  /** Line k is the first to give the item a value in a section of the group. */
  ghost predicate GivesFirst(lines: seq<Line>, k: nat, g: string, name: string, value: string)
  {
    Gives(lines, k, g, name, value) && forall j: nat, other :: j < k ==> !Gives(lines, j, g, name, other)
  }

  /** What a parsed file holds, for every file: the value on the first line that gives the item one. */
  lemma ParsedIs(lines: seq<Line>, g: string, name: string, value: string)
    ensures Find(Parsed(lines), g, name) == Some(value) <==> exists k: nat :: GivesFirst(lines, k, g, name, value)
  {
    ParsedIsFirstDefinition(lines, g, name);
    var k := FirstIs(lines, 0, g, name);
    forall j: nat, v | j < |lines| ensures DefinedAt(lines, j, g, name) == Some(v) <==> Gives(lines, j, g, name, v) {
      DefinedIs(lines, j, g, name, v);
    }
    assert forall j: nat :: j < |lines| && DefinedAt(lines, j, g, name).Some? ==>
             Gives(lines, j, g, name, DefinedAt(lines, j, g, name).value);
    if FirstDefinition(lines, 0, g, name) == Some(value) {
      assert GivesFirst(lines, k, g, name, value);
    }
    if m: nat :| GivesFirst(lines, m, g, name, value) {
      assert m < k ==> DefinedAt(lines, m, g, name).None?;
      assert k < m ==> Gives(lines, k, g, name, DefinedAt(lines, k, g, name).value);
    }
  }

  /** A header and one item under it. */
  lemma TwoLinesRead(g: string, name: string, i: nat, j: nat, value: string)
    requires OverGroups(g) && OverNames(name) && (value == "" || value[0] != ' ')
    ensures var lines := ["[" + g + "]", ((name + Spaces(i)) + "=") + (Spaces(j) + value)];
            Find(Parsed(lines), g, name) == Some(value)
  {
    var lines := ["[" + g + "]", ((name + Spaces(i)) + "=") + (Spaces(j) + value)];
    assert IsWritten(lines[1], name, i, j, value);
    assert InSection(lines, 0, 1, g) && Gives(lines, 1, g, name, value);
    HeaderIs(lines[0], g);
    GroupIsNoItem(lines[0]);
    forall other ensures !Gives(lines, 0, g, name, other) {
      ItemIs(lines[0], name, other);
    }
    assert GivesFirst(lines, 1, g, name, value);
    ParsedIs(lines, g, name, value);
  }

  /** The variables of the shipped configuration begin like this. */
  lemma ShippedVariableReads()
    ensures Find(Parsed(["[Vars]", "private=src"]), "Vars", "private") == Some("src")
  {
    assert OverGroups("Vars") by {
      AlphabetsAre('V');
      AlphabetsAre('a');
      AlphabetsAre('r');
      AlphabetsAre('s');
    }
    assert OverNames("private") by {
      AlphabetsAre('p');
      AlphabetsAre('r');
      AlphabetsAre('i');
      AlphabetsAre('v');
      AlphabetsAre('a');
      AlphabetsAre('t');
      AlphabetsAre('e');
    }
    assert "[" + "Vars" + "]" == "[Vars]";
    assert (("private" + Spaces(0)) + "=") + (Spaces(0) + "src") == "private=src";
    TwoLinesRead("Vars", "private", 0, 0, "src");
  }

  // ----- rewriting, line by line

  ghost predicate IsAnyHeader(l: Line)
  {
    exists g :: IsHeader(l, g)
  }

  ghost predicate IsItemNamed(l: Line, name: string)
  {
    exists value :: IsItem(l, name, value)
  }

  lemma AnyHeaderIs(l: Line)
    ensures IsAnyHeader(l) <==> GroupOf(l).Some?
  {
    if g :| IsHeader(l, g) {
      HeaderIs(l, g);
    }
    if GroupOf(l).Some? {
      HeaderIs(l, GroupOf(l).value);
    }
  }

  lemma ItemNamedIs(l: Line, s: Setting)
    ensures IsItemNamed(l, s.item) <==> DefinesItem(l, s)
  {
    if value :| IsItem(l, s.item, value) {
      ItemIs(l, s.item, value);
    }
    if DefinesItem(l, s) {
      ItemIs(l, s.item, ItemOf(l).value.value);
    }
  }

  /** The first e lines have neither a header nor the item. */
  ghost predicate Copies(lines: seq<Line>, e: nat, name: string)
    requires e <= |lines|
  {
    forall k :: 0 <= k < e ==> !IsAnyHeader(lines[k]) && !IsItemNamed(lines[k], name)
  }

  lemma {:induction false} SectionTextIs(lines: seq<Line>, s: Setting, e: nat)
    requires e <= |lines| && Copies(lines, e, s.item)
    ensures var item := s.item + "=" + s.value;
            && (e == |lines| ==> SectionText(lines, s) == lines && !SectionWritten(lines, s))
            && (e < |lines| && IsAnyHeader(lines[e]) ==>
                  SectionText(lines, s) == lines[..e] + [item] + lines[e..] && SectionWritten(lines, s))
            && (e < |lines| && !IsAnyHeader(lines[e]) && IsItemNamed(lines[e], s.item) ==>
                  SectionText(lines, s) == lines[..e] + [item] + lines[e + 1..] && SectionWritten(lines, s))
    decreases e
  {
    if lines != [] {
      AnyHeaderIs(lines[0]);
      ItemNamedIs(lines[0], s);
      if e > 0 {
        var rest := lines[1..];
        assert forall k :: 0 <= k < e - 1 ==> rest[k] == lines[k + 1];
        SectionTextIs(rest, s, e - 1);
        assert SectionText(lines, s) == [lines[0]] + SectionText(rest, s);
        if e < |lines| {
          assert rest[e - 1] == lines[e];
          Ahead(lines, e, s.item + "=" + s.value);
        }
      }
    }
  }

  lemma Ahead(lines: seq<Line>, e: nat, x: Line)
    requires 0 < e < |lines|
    ensures var rest := lines[1..];
            && [lines[0]] + (rest[..e - 1] + [x] + rest[e - 1..]) == lines[..e] + [x] + lines[e..]
            && [lines[0]] + (rest[..e - 1] + [x] + rest[e..]) == lines[..e] + [x] + lines[e + 1..]
  {
    assert lines[..1] == [lines[0]];
    Relocate(lines, 1, e, x);
  }

  /** A file without the group's header gets the header and the item at its end. */
  lemma RewrittenWithoutHeader(lines: seq<Line>, s: Setting)
    requires forall k :: 0 <= k < |lines| ==> !IsHeader(lines[k], s.group)
    ensures Rewritten(lines, s) == lines + ["[" + s.group + "]", s.item + "=" + s.value]
  {
    var h := HeaderIndex(lines, s.group);
    if h < |lines| {
      HeaderIs(lines[h], s.group);
    }
  }

  /**
    In a file with the header the line of the item takes the place of the first line with the item in that section, or
    goes in front of the next header; a section that reaches the end without the item is written once more.
   */
  lemma RewrittenAfterHeader(lines: seq<Line>, s: Setting, h: nat, e: nat)
    requires h < e <= |lines| && IsHeader(lines[h], s.group)
    requires forall k :: 0 <= k < h ==> !IsHeader(lines[k], s.group)
    requires Copies(lines[h + 1..], e - (h + 1), s.item)
    ensures var header, item := "[" + s.group + "]", s.item + "=" + s.value;
            && (e == |lines| ==> Rewritten(lines, s) == lines + [header, item])
            && (e < |lines| && IsAnyHeader(lines[e]) ==> Rewritten(lines, s) == lines[..e] + [item] + lines[e..])
            && (e < |lines| && !IsAnyHeader(lines[e]) && IsItemNamed(lines[e], s.item) ==>
                  Rewritten(lines, s) == lines[..e] + [item] + lines[e + 1..])
  {
    TailIs(lines, s, h);
    TextIs(lines, s, h + 1, e);
    AppendixIs(s);
    if e == |lines| {
      Extended(lines, h + 1, Appendix(s));
    }
  }

  lemma AppendixIs(s: Setting)
    ensures Appendix(s) == ["[" + s.group + "]", s.item + "=" + s.value]
  {
  }

  lemma Extended(lines: seq<Line>, k: nat, more: seq<Line>)
    requires k <= |lines|
    ensures lines[..k] + (lines[k..] + more) == lines + more
  {
  }

  lemma TailIs(lines: seq<Line>, s: Setting, h: nat)
    requires h < |lines| && IsHeader(lines[h], s.group)
    requires forall k :: 0 <= k < h ==> !IsHeader(lines[k], s.group)
    ensures Rewritten(lines, s) == lines[..h + 1] + RewrittenTail(lines[h + 1..], s)
  {
    HeaderIs(lines[h], s.group);
    forall k | 0 <= k < h ensures GroupOf(lines[k]) != Some(s.group) {
      HeaderIs(lines[k], s.group);
    }
    HeaderPlace(lines, s, h);
  }

  lemma HeaderPlace(lines: seq<Line>, s: Setting, h: nat)
    requires h < |lines| && GroupOf(lines[h]) == Some(s.group)
    requires forall k :: 0 <= k < h ==> GroupOf(lines[k]) != Some(s.group)
    ensures HeaderIndex(lines, s.group) == h
  {
  }

  /** The section from line k on. */
  lemma TextIs(lines: seq<Line>, s: Setting, k: nat, e: nat)
    requires k <= e <= |lines| && Copies(lines[k..], e - k, s.item)
    ensures var item := s.item + "=" + s.value;
            && (e == |lines| ==> RewrittenTail(lines[k..], s) == lines[k..] + Appendix(s))
            && (e < |lines| && IsAnyHeader(lines[e]) ==>
                  lines[..k] + RewrittenTail(lines[k..], s) == lines[..e] + [item] + lines[e..])
            && (e < |lines| && !IsAnyHeader(lines[e]) && IsItemNamed(lines[e], s.item) ==>
                  lines[..k] + RewrittenTail(lines[k..], s) == lines[..e] + [item] + lines[e + 1..])
  {
    SectionTextIs(lines[k..], s, e - k);
    if e < |lines| {
      assert lines[k..][e - k] == lines[e];
      Relocate(lines, k, e, s.item + "=" + s.value);
    }
  }

  /** Putting a line into the tail is putting it into the whole. */
  lemma Relocate(lines: seq<Line>, k: nat, e: nat, x: Line)
    requires k <= e < |lines|
    ensures var tail := lines[k..];
            && lines[..k] + (tail[..e - k] + [x] + tail[e - k..]) == lines[..e] + [x] + lines[e..]
            && lines[..k] + (tail[..e - k] + [x] + tail[e - k + 1..]) == lines[..e] + [x] + lines[e + 1..]
  {
    var tail := lines[k..];
    assert lines[..e] == lines[..k] + tail[..e - k];
    assert tail[e - k..] == lines[e..] && tail[e - k + 1..] == lines[e + 1..];
    Behind(lines[..k], tail[..e - k], [x], lines[e..]);
    Behind(lines[..k], tail[..e - k], [x], lines[e + 1..]);
  }

  lemma Behind(a: seq<Line>, b: seq<Line>, c: seq<Line>, d: seq<Line>)
    ensures a + (b + c + d) == (a + b) + c + d
  {
  }
}
