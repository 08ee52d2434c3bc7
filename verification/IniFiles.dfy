/**
  Initialisation files: groups of name=value items, held in memory as a map of maps and on disk as lines. `Put` updates
  both, the disk by rewriting the file line by line; the results here say when the two stay in step.
 */
module IniFiles {
  import opened Basics

  datatype Item = Item(name: string, value: string)
  datatype Setting = Setting(group: string, item: string, value: string)

  /** A line of a file, without the newline that ends it. */
  type Line = string

  type NameMap = map<string, string>
  type GroupMap = map<string, NameMap>

  // ----- what a line is

  predicate IsAlphanumeric(c: char)
  {
    'A' <= c <= 'Z' || 'a' <= c <= 'z' || '0' <= c <= '9'
  }

  predicate IsNameChar(c: char)
  {
    IsAlphanumeric(c) || c == '_' || c == '-'
  }

  predicate IsGroupChar(c: char)
  {
    IsAlphanumeric(c) || c in {'/', '(', ')', '+', ' ', ':', ';', ',', '_', '.', '-'}
  }

  predicate IsSpace(c: char)
  {
    c == ' '
  }

  predicate IsBlank(c: char)
  {
    c == ' ' || c == '\t'
  }

  /** The end of the longest run of characters in the class that starts at `from`. */
  function Span(s: string, inClass: char -> bool, from: nat): (n: nat)
    requires from <= |s|
    ensures from <= n <= |s| && (forall k :: from <= k < n ==> inClass(s[k])) && (n < |s| ==> !inClass(s[n]))
    decreases |s| - from
  {
    if from < |s| && inClass(s[from]) then Span(s, inClass, from + 1) else from
  }

  predicate IsComment(s: string)
  {
    var n := Span(s, IsBlank, 0);
    n == |s| || s[n] == '#'
  }

  predicate LegalGroup(g: string)
  {
    forall k :: 0 <= k < |g| ==> IsGroupChar(g[k])
  }

  predicate LegalName(n: string)
  {
    forall k :: 0 <= k < |n| ==> IsNameChar(n[k])
  }

  function GroupOf(s: string): Option<string>
  {
    if |s| >= 2 && s[0] == '[' && s[|s| - 1] == ']' && LegalGroup(s[1..|s| - 1]) then Some(s[1..|s| - 1]) else None
  }

  function Unpadded(s: string): string
  {
    s[Span(s, IsSpace, 0)..]
  }

  /** A name, an equals sign with spaces around it, and the rest of the line. */
  function ItemOf(s: string): Option<Item>
  {
    var n := Span(s, IsNameChar, 0);
    var k := Span(s, IsSpace, n);
    if k < |s| && s[k] == '=' then Some(Item(s[..n], s[Span(s, IsSpace, k + 1)..])) else None
  }

  lemma CommentIsNothingElse(s: string)
    requires IsComment(s)
    ensures GroupOf(s) == None && ItemOf(s) == None
  {
    var n := Span(s, IsBlank, 0);
    assert Span(s, IsNameChar, 0) == 0;
    var k := Span(s, IsSpace, 0);
    assert k < n ==> IsBlank(s[k]);
  }

  lemma GroupIsNoItem(s: string)
    requires GroupOf(s).Some?
    ensures ItemOf(s) == None
  {
    assert !IsNameChar(s[0]);
  }

  function GroupLine(g: string): Line
  {
    "[" + g + "]"
  }

  function ItemLine(name: string, value: Line): Line
  {
    name + "=" + value
  }

  lemma GroupLineReads(g: string)
    requires LegalGroup(g)
    ensures !IsComment(GroupLine(g)) && GroupOf(GroupLine(g)) == Some(g)
  {
    var l := GroupLine(g);
    assert l[1..|l| - 1] == g;
  }

  lemma {:induction false} SpanIs(s: string, inClass: char -> bool, from: nat, n: nat)
    requires from <= n <= |s| && (forall k :: from <= k < n ==> inClass(s[k])) && (n < |s| ==> !inClass(s[n]))
    ensures Span(s, inClass, from) == n
    decreases n - from
  {
    if from < n {
      SpanIs(s, inClass, from + 1, n);
    }
  }

  lemma UnpaddedIsSuffix(s: string)
    ensures (s == "" || s[0] != ' ') ==> Unpadded(s) == s
    ensures |Unpadded(s)| <= |s| && (s != "" && s[0] == ' ' ==> |Unpadded(s)| < |s|)
  {
  }

  /** Text after a prefix begins with as many spaces as it does alone. */
  lemma UnpaddedAfter(p: string, s: string)
    ensures (p + s)[Span(p + s, IsSpace, |p|)..] == Unpadded(s)
  {
    var n := Span(s, IsSpace, 0);
    assert forall k :: 0 <= k < |s| ==> (p + s)[|p| + k] == s[k];
    assert forall k :: |p| <= k < |p| + n ==> (p + s)[k] == s[k - |p|];
    SpanIs(p + s, IsSpace, |p|, |p| + n);
  }

  /** The line written for an item reads back as that item, without the leading spaces of the value. */
  lemma ItemLineReads(name: string, value: Line)
    requires LegalName(name)
    ensures var l := ItemLine(name, value);
            !IsComment(l) && GroupOf(l) == None && ItemOf(l) == Some(Item(name, Unpadded(value)))
  {
    NameEnds(name, value);
    UnpaddedAfter(name + "=", value);
    ItemIsNothingElse(ItemLine(name, value));
  }

  lemma NameEnds(name: string, value: Line)
    requires LegalName(name)
    ensures var l := ItemLine(name, value);
            && l == (name + "=") + value && l[|name|] == '=' && l[..|name|] == name
            && Span(l, IsNameChar, 0) == |name|
  {
    var l := ItemLine(name, value);
    assert l[|name|] == '=' && forall k :: 0 <= k < |name| ==> l[k] == name[k];
    SpanIs(l, IsNameChar, 0, |name|);
  }

  lemma ItemIsNothingElse(l: Line)
    requires ItemOf(l).Some?
    ensures !IsComment(l) && GroupOf(l) == None
  {
    if IsComment(l) {
      CommentIsNothingElse(l);
    }
    if GroupOf(l).Some? {
      GroupIsNoItem(l);
    }
  }

  datatype Kind = Other | Header(group: string) | Definition(item: Item)

  /** The order in which the reader tries its patterns. */
  function Classify(l: Line): Kind
  {
    if IsComment(l) then Other
    else match GroupOf(l)
      case Some(g) => Header(g)
      case None => match ItemOf(l) case Some(i) => Definition(i) case None => Other
  }

  /** `Put` looks for groups and items without asking for comments first; it sees the same lines. */
  lemma ClassifyAgrees(l: Line)
    ensures GroupOf(l) == match Classify(l) case Header(g) => Some(g) case _ => None
    ensures ItemOf(l) == match Classify(l) case Definition(i) => Some(i) case _ => None
  {
    if IsComment(l) {
      CommentIsNothingElse(l);
    }
    if GroupOf(l).Some? {
      GroupIsNoItem(l);
    }
  }

  // ----- parsing

  /** The first definition of an item wins. */
  function Insert(m: GroupMap, g: string, item: Item): GroupMap
    requires g in m
  {
    if item.name in m[g] then m else m[g := m[g][item.name := item.value]]
  }

  /** The map once the group's header has been seen. */
  function Opened(m: GroupMap, g: string): GroupMap
  {
    if g in m then m else m[g := map[]]
  }

  ghost predicate Open(current: Option<string>, m: GroupMap)
  {
    current.Some? ==> current.value in m
  }

  function Applied(kind: Kind, current: Option<string>, m: GroupMap): (n: GroupMap)
    requires Open(current, m)
    ensures m.Keys <= n.Keys
  {
    match kind
    case Header(g) => Opened(m, g)
    case Definition(item) => if current.None? then m else Insert(m, current.value, item)
    case Other => m
  }

  function StepMap(l: Line, current: Option<string>, m: GroupMap): (n: GroupMap)
    requires Open(current, m)
    ensures m.Keys <= n.Keys
  {
    Applied(Classify(l), current, m)
  }

  function StepGroup(l: Line, current: Option<string>): Option<string>
  {
    match Classify(l) case Header(g) => Some(g) case _ => current
  }

  function ParseFrom(lines: seq<Line>, current: Option<string>, m: GroupMap): (p: GroupMap)
    requires Open(current, m)
    ensures m.Keys <= p.Keys
    decreases |lines|
  {
    if lines == [] then m
    else ParseFrom(lines[1..], StepGroup(lines[0], current), StepMap(lines[0], current, m))
  }

  function Parsed(lines: seq<Line>): GroupMap
  {
    ParseFrom(lines, None, map[])
  }

  function WithSetting(m: GroupMap, s: Setting): GroupMap
  {
    m[s.group := Opened(m, s.group)[s.group][s.item := s.value]]
  }

  function Find(m: GroupMap, group: string, item: string): Option<string>
  {
    if group in m && item in m[group] then Some(m[group][item]) else None
  }

  // ----- what parsing means, without the maps

  /** The group that a line stands in. */
  function SectionAt(lines: seq<Line>, k: nat): Option<string>
    requires k <= |lines|
  {
    if k == 0 then None
    else StepGroup(lines[k - 1], SectionAt(lines, k - 1))
  }

  function DefinedAt(lines: seq<Line>, k: nat, group: string, item: string): Option<string>
    requires k < |lines|
  {
    match Classify(lines[k])
    case Definition(i) => if i.name == item && SectionAt(lines, k) == Some(group) then Some(i.value) else None
    case _ => None
  }

  /** The value on the first line that defines the item in a section of the group. */
  function FirstDefinition(lines: seq<Line>, k: nat, group: string, item: string): Option<string>
    requires k <= |lines|
    decreases |lines| - k
  {
    if k == |lines| then None
    else if DefinedAt(lines, k, group, item).Some? then DefinedAt(lines, k, group, item)
    else FirstDefinition(lines, k + 1, group, item)
  }

  lemma AppliedFinds(kind: Kind, current: Option<string>, m: GroupMap, group: string, item: string)
    requires Open(current, m)
    ensures var before := Find(m, group, item);
            Find(Applied(kind, current, m), group, item)
            == if before.Some? then before
               else match kind
                 case Definition(i) => if i.name == item && current == Some(group) then Some(i.value) else None
                 case _ => None
  {
  }

  lemma {:induction false} ParseFindsFirst(lines: seq<Line>, k: nat, m: GroupMap, group: string, item: string)
    requires k <= |lines| && Open(SectionAt(lines, k), m)
    ensures var before := Find(m, group, item);
            Find(ParseFrom(lines[k..], SectionAt(lines, k), m), group, item)
            == if before.Some? then before else FirstDefinition(lines, k, group, item)
    decreases |lines| - k
  {
    if k < |lines| {
      assert lines[k..][0] == lines[k] && lines[k..][1..] == lines[k + 1..];
      var next := StepMap(lines[k], SectionAt(lines, k), m);
      AppliedFinds(Classify(lines[k]), SectionAt(lines, k), m, group, item);
      ParseFindsFirst(lines, k + 1, next, group, item);
    }
  }

  /** In a parsed file an item has the value of its first definition, and is absent without one. */
  lemma ParsedIsFirstDefinition(lines: seq<Line>, group: string, item: string)
    ensures Find(Parsed(lines), group, item) == FirstDefinition(lines, 0, group, item)
  {
    assert lines[0..] == lines;
    ParseFindsFirst(lines, 0, map[], group, item);
  }

  // ----- rewriting

  /** What is written for the setting is two lines. */
  predicate OneLine(s: Setting)
  {
    '\n' !in s.group && '\n' !in s.item && '\n' !in s.value
  }

  /** The patterns of the reader match what is written. */
  predicate Legal(s: Setting)
  {
    LegalGroup(s.group) && LegalName(s.item) && '\n' !in s.value
  }

  function HeaderIndex(lines: seq<Line>, group: string): (h: nat)
    ensures h <= |lines| && (h < |lines| ==> GroupOf(lines[h]) == Some(group))
    ensures forall k :: 0 <= k < h ==> GroupOf(lines[k]) != Some(group)
  {
    if lines == [] || GroupOf(lines[0]) == Some(group) then 0 else 1 + HeaderIndex(lines[1..], group)
  }

  predicate DefinesItem(l: Line, s: Setting)
  {
    ItemOf(l).Some? && ItemOf(l).value.name == s.item
  }

  /** Whether the search through the lines after the header meets the item or the next group. */
  predicate SectionWritten(lines: seq<Line>, s: Setting)
  {
    lines != [] && (GroupOf(lines[0]).Some? || DefinesItem(lines[0], s) || SectionWritten(lines[1..], s))
  }

  /** The lines after the header with the item put there. */
  function SectionText(lines: seq<Line>, s: Setting): seq<Line>
  {
    if lines == [] then []
    else if GroupOf(lines[0]).Some? then [ItemLine(s.item, s.value)] + lines
    else if DefinesItem(lines[0], s) then [ItemLine(s.item, s.value)] + lines[1..]
    else [lines[0]] + SectionText(lines[1..], s)
  }

  function Appendix(s: Setting): seq<Line>
  {
    [GroupLine(s.group), ItemLine(s.item, s.value)]
  }

  /** A line that is copied, */
  lemma Copied(out: seq<Line>, lines: seq<Line>, s: Setting)
    requires lines != [] && GroupOf(lines[0]).None? && !DefinesItem(lines[0], s)
    ensures (out + [lines[0]]) + SectionText(lines[1..], s) == out + SectionText(lines, s)
    ensures SectionWritten(lines, s) == SectionWritten(lines[1..], s)
  {
    Regroup(out, [lines[0]], SectionText(lines[1..], s));
  }

  /** the next group's header, which the item is put in front of, */
  lemma PutBefore(out: seq<Line>, lines: seq<Line>, s: Setting)
    requires lines != [] && GroupOf(lines[0]).Some?
    ensures SectionWritten(lines, s)
    ensures out + SectionText(lines, s) == ((out + [ItemLine(s.item, s.value)]) + [lines[0]]) + lines[1..]
  {
    assert lines == [lines[0]] + lines[1..];
    Regroup(out + [ItemLine(s.item, s.value)], [lines[0]], lines[1..]);
    Regroup(out, [ItemLine(s.item, s.value)], lines);
  }

  /** and the item's line, which it replaces. */
  lemma PutOver(out: seq<Line>, lines: seq<Line>, s: Setting)
    requires lines != [] && GroupOf(lines[0]).None? && DefinesItem(lines[0], s)
    ensures SectionWritten(lines, s) && out + SectionText(lines, s) == (out + [ItemLine(s.item, s.value)]) + lines[1..]
  {
    Regroup(out, [ItemLine(s.item, s.value)], lines[1..]);
  }

  function RewrittenTail(lines: seq<Line>, s: Setting): seq<Line>
  {
    if SectionWritten(lines, s) then SectionText(lines, s) else SectionText(lines, s) + Appendix(s)
  }

  function Rewritten(lines: seq<Line>, s: Setting): seq<Line>
  {
    var h := HeaderIndex(lines, s.group);
    if h == |lines| then lines + Appendix(s) else lines[..h + 1] + RewrittenTail(lines[h + 1..], s)
  }

  /** In the terms of the two loops: the first `k` lines, the section, and what is appended. */
  lemma RewrittenIs(s: Setting, lines: seq<Line>, k: nat, found: bool)
    requires found == (HeaderIndex(lines, s.group) < |lines|)
    requires k == if found then HeaderIndex(lines, s.group) + 1 else |lines|
    ensures !found ==> Rewritten(lines, s) == lines[..k] + Appendix(s)
    ensures found ==>
              var out := lines[..k] + SectionText(lines[k..], s);
              Rewritten(lines, s) == if SectionWritten(lines[k..], s) then out else out + Appendix(s)
  {
    if found {
      Regroup(lines[..k], SectionText(lines[k..], s), Appendix(s));
    } else {
      assert lines[..k] == lines;
    }
  }

  // ----- memory and disk agree

  function GroupAfter(lines: seq<Line>, current: Option<string>): Option<string>
  {
    if lines == [] then current else GroupAfter(lines[1..], StepGroup(lines[0], current))
  }

  lemma {:induction false} ParseConcat(p: seq<Line>, q: seq<Line>, current: Option<string>, m: GroupMap)
    requires Open(current, m)
    ensures var n := ParseFrom(p, current, m);
            Open(GroupAfter(p, current), n) && ParseFrom(p + q, current, m) == ParseFrom(q, GroupAfter(p, current), n)
    decreases |p|
  {
    if p == [] {
      assert p + q == q;
    } else {
      assert (p + q)[1..] == p[1..] + q;
      ParseConcat(p[1..], q, StepGroup(p[0], current), StepMap(p[0], current, m));
    }
  }

  lemma WithSettingTwice(m: GroupMap, s: Setting, first: string)
    ensures WithSetting(WithSetting(m, s.(value := first)), s) == WithSetting(m, s)
  {
    var once := WithSetting(m, s.(value := first));
    assert once[s.group][s.item := s.value] == Opened(m, s.group)[s.group][s.item := s.value];
  }

  lemma OpenedCommutes(m: GroupMap, g: string, s: Setting)
    ensures Opened(WithSetting(m, s), g) == WithSetting(Opened(m, g), s)
  {
  }

  lemma OpenedSetting(m: GroupMap, s: Setting)
    ensures WithSetting(Opened(m, s.group), s) == WithSetting(m, s)
  {
  }

  lemma AppliedCommutes(kind: Kind, current: Option<string>, m: GroupMap, s: Setting)
    requires Open(current, m)
    ensures Applied(kind, current, WithSetting(m, s)) == WithSetting(Applied(kind, current, m), s)
  {
    match kind
    case Definition(item) =>
      if current.Some? {
        InsertCommutes(m, current.value, item, s);
      }
    case Header(g) => OpenedCommutes(m, g, s);
    case Other =>
  }

  lemma InsertCommutes(m: GroupMap, g: string, item: Item, s: Setting)
    requires g in m
    ensures Insert(WithSetting(m, s), g, item) == WithSetting(Insert(m, g, item), s)
  {
    if g == s.group {
      assert Insert(WithSetting(m, s), g, item)[g] == WithSetting(Insert(m, g, item), s)[g];
    }
  }

  /** A setting made before parsing survives it, so it may as well be made afterwards. */
  lemma {:induction false} SettingCommutes(lines: seq<Line>, current: Option<string>, m: GroupMap, s: Setting)
    requires Open(current, m)
    ensures ParseFrom(lines, current, WithSetting(m, s)) == WithSetting(ParseFrom(lines, current, m), s)
    decreases |lines|
  {
    if lines != [] {
      AppliedCommutes(Classify(lines[0]), current, m, s);
      SettingCommutes(lines[1..], StepGroup(lines[0], current), StepMap(lines[0], current, m), s);
    }
  }

  function Stored(s: Setting): Setting
  {
    s.(value := Unpadded(s.value))
  }

  lemma ParseCons(l: Line, rest: seq<Line>, current: Option<string>, m: GroupMap)
    requires Open(current, m)
    ensures ParseFrom([l] + rest, current, m) == ParseFrom(rest, StepGroup(l, current), StepMap(l, current, m))
  {
    assert ([l] + rest)[0] == l && ([l] + rest)[1..] == rest;
  }

  lemma ParseItemLine(rest: seq<Line>, s: Setting, m: GroupMap)
    requires Legal(s) && s.group in m && s.item !in m[s.group]
    ensures ParseFrom([ItemLine(s.item, s.value)] + rest, Some(s.group), m)
         == WithSetting(ParseFrom(rest, Some(s.group), m), Stored(s))
  {
    ItemLineReads(s.item, s.value);
    ParseCons(ItemLine(s.item, s.value), rest, Some(s.group), m);
    SettingCommutes(rest, Some(s.group), m, Stored(s));
  }

  lemma ParseAppendix(s: Setting, current: Option<string>, m: GroupMap)
    requires Legal(s) && Open(current, m)
    requires s.group in m ==> s.item !in m[s.group]
    ensures ParseFrom(Appendix(s), current, m) == WithSetting(m, Stored(s))
  {
    GroupLineReads(s.group);
    var n := Opened(m, s.group);
    var item := [ItemLine(s.item, s.value)];
    ParseCons(GroupLine(s.group), item, current, m);
    assert Appendix(s) == [GroupLine(s.group)] + item;
    assert ParseFrom(item, Some(s.group), n) == WithSetting(n, Stored(s)) by {
      ParseItemLine([], s, n);
      assert item + [] == item;
    }
    OpenedSetting(m, Stored(s));
  }

  ghost predicate Faithful(lines: seq<Line>, rewritten: seq<Line>, s: Setting, m: GroupMap)
    requires s.group in m
  {
    ParseFrom(rewritten, Some(s.group), m) == WithSetting(ParseFrom(lines, Some(s.group), m), Stored(s))
  }

  /** The section rewritten from right after its header, where the group has no such item yet. */
  lemma {:induction false} SectionAgrees(lines: seq<Line>, s: Setting, m: GroupMap)
    requires Legal(s) && s.group in m && s.item !in m[s.group]
    ensures Faithful(lines, RewrittenTail(lines, s), s, m)
    decreases |lines|
  {
    var tail := RewrittenTail(lines, s);
    if lines == [] {
      assert tail == Appendix(s);
      ParseAppendix(s, Some(s.group), m);
    } else {
      var l := lines[0];
      ClassifyAgrees(l);
      if GroupOf(l).Some? {
        assert tail == [ItemLine(s.item, s.value)] + lines;
        ParseItemLine(lines, s, m);
      } else if DefinesItem(l, s) {
        assert tail == [ItemLine(s.item, s.value)] + lines[1..];
        ItemReplaced(lines, s, m);
      } else {
        assert tail == [l] + RewrittenTail(lines[1..], s);
        assert tail[0] == l && tail[1..] == RewrittenTail(lines[1..], s);
        SectionAgrees(lines[1..], s, StepMap(l, Some(s.group), m));
      }
    }
  }

  lemma ItemReplaced(lines: seq<Line>, s: Setting, m: GroupMap)
    requires Legal(s) && s.group in m && s.item !in m[s.group]
    requires lines != [] && Classify(lines[0]).Definition? && Classify(lines[0]).item.name == s.item
    ensures Faithful(lines, [ItemLine(s.item, s.value)] + lines[1..], s, m)
  {
    var was := s.(value := Classify(lines[0]).item.value);
    ParseItemLine(lines[1..], s, m);
    assert StepMap(lines[0], Some(s.group), m) == WithSetting(m, was);
    SettingCommutes(lines[1..], Some(s.group), m, was);
    WithSettingTwice(ParseFrom(lines[1..], Some(s.group), m), Stored(s), was.value);
    assert was == Stored(s).(value := was.value);
  }

  lemma {:induction false} NoHeaderNoGroup(lines: seq<Line>, current: Option<string>, m: GroupMap, group: string)
    requires Open(current, m) && group !in m
    requires forall k :: 0 <= k < |lines| ==> GroupOf(lines[k]) != Some(group)
    ensures group !in ParseFrom(lines, current, m)
    decreases |lines|
  {
    if lines != [] {
      ClassifyAgrees(lines[0]);
      NoHeaderNoGroup(lines[1..], StepGroup(lines[0], current), StepMap(lines[0], current, m), group);
    }
  }

  lemma ParseThroughHeader(lines: seq<Line>, h: nat, group: string, rest: seq<Line>)
    requires h < |lines| && GroupOf(lines[h]) == Some(group)
    requires group !in ParseFrom(lines[..h], None, map[])
    ensures Parsed(lines[..h + 1] + rest)
         == ParseFrom(rest, Some(group), ParseFrom(lines[..h], None, map[])[group := map[]])
  {
    ClassifyAgrees(lines[h]);
    var m := ParseFrom(lines[..h], None, map[]);
    ParseConcat(lines[..h], [lines[h]] + rest, None, map[]);
    ParseCons(lines[h], rest, GroupAfter(lines[..h], None), m);
    assert lines[..h + 1] + rest == lines[..h] + ([lines[h]] + rest);
  }

  /** The rewritten file parses to the old contents with the one setting made, leading spaces of the value gone. */
  lemma RewrittenParses(lines: seq<Line>, s: Setting)
    requires Legal(s)
    ensures Parsed(Rewritten(lines, s)) == WithSetting(Parsed(lines), Stored(s))
  {
    var h := HeaderIndex(lines, s.group);
    NoHeaderNoGroup(lines[..h], None, map[], s.group);
    if h == |lines| {
      assert lines[..h] == lines;
      ParseConcat(lines, Appendix(s), None, map[]);
      ParseAppendix(s, GroupAfter(lines, None), Parsed(lines));
    } else {
      var tail := RewrittenTail(lines[h + 1..], s);
      assert Rewritten(lines, s) == lines[..h + 1] + tail;
      assert lines == lines[..h + 1] + lines[h + 1..];
      ParseThroughHeader(lines, h, s.group, tail);
      ParseThroughHeader(lines, h, s.group, lines[h + 1..]);
      SectionAgrees(lines[h + 1..], s, ParseFrom(lines[..h], None, map[])[s.group := map[]]);
    }
  }

  /** The setting is read as it was written: the patterns match, and the value does not begin with a space. */
  predicate ReadsBack(s: Setting)
  {
    Legal(s) && (s.value == "" || s.value[0] != ' ')
  }

  lemma AgreesIffNoLeadingSpace(lines: seq<Line>, s: Setting)
    requires Legal(s)
    ensures Parsed(Rewritten(lines, s)) == WithSetting(Parsed(lines), s) <==> s.value == "" || s.value[0] != ' '
  {
    RewrittenParses(lines, s);
    var stored := Unpadded(s.value);
    assert WithSetting(Parsed(lines), s)[s.group][s.item] == s.value;
    assert WithSetting(Parsed(lines), Stored(s))[s.group][s.item] == stored;
    UnpaddedIsSuffix(s.value);
  }

  /** Groups and names as the patterns allow them. */
  ghost predicate AllLegal(m: GroupMap)
  {
    forall g :: g in m ==> LegalGroup(g) && forall n :: n in m[g] ==> LegalName(n)
  }

  lemma StepLegal(l: Line, current: Option<string>, m: GroupMap)
    requires Open(current, m) && AllLegal(m)
    ensures AllLegal(StepMap(l, current, m))
  {
    ClassifyAgrees(l);
    match Classify(l)
    case Header(g) => assert LegalGroup(g);
    case Definition(i) => assert LegalName(i.name);
    case Other =>
  }

  lemma {:induction false} ParsedIsLegal(lines: seq<Line>, current: Option<string>, m: GroupMap)
    requires Open(current, m) && AllLegal(m)
    ensures AllLegal(ParseFrom(lines, current, m))
    decreases |lines|
  {
    if lines != [] {
      StepLegal(lines[0], current, m);
      ParsedIsLegal(lines[1..], StepGroup(lines[0], current), StepMap(lines[0], current, m));
    }
  }

  /** Memory and disk agree after a put exactly when the setting is read as it was written. */
  lemma AgreesIffReadsBack(lines: seq<Line>, s: Setting)
    requires OneLine(s)
    ensures Parsed(Rewritten(lines, s)) == WithSetting(Parsed(lines), s) <==> ReadsBack(s)
  {
    if Legal(s) {
      AgreesIffNoLeadingSpace(lines, s);
    } else {
      ParsedIsLegal(Rewritten(lines, s), None, map[]);
      assert s.group in WithSetting(Parsed(lines), s) && s.item in WithSetting(Parsed(lines), s)[s.group];
    }
  }

  // ----- the object

  class IniFile {
    var groupMap: GroupMap
    /** The lines of the file on disk. */
    var disk: seq<Line>

    ghost predicate Agrees()
      reads this
    {
      groupMap == Parsed(disk)
    }

    constructor (contents: seq<Line>)
      ensures disk == contents && Agrees()
    {
      groupMap, disk := map[], contents;
      new;
      Parse();
    }

    method Parse()
      modifies this`groupMap
      ensures groupMap == ParseFrom(disk, None, old(groupMap))
    {
      var currentNameMap: Option<string> := None;
      var k := 0;
      while k < |disk|
        invariant 0 <= k <= |disk| && (currentNameMap.Some? ==> currentNameMap.value in groupMap)
        invariant ParseFrom(disk[k..], currentNameMap, groupMap) == ParseFrom(disk, None, old(groupMap))
      {
        var l := disk[k];
        assert disk[k..][0] == l && disk[k..][1..] == disk[k + 1..];
        if IsComment(l) {
        } else if GroupOf(l).Some? {
          var g := GroupOf(l).value;
          if g !in groupMap {
            groupMap := groupMap[g := map[]];
          }
          currentNameMap := Some(g);
        } else if ItemOf(l).Some? {
          if currentNameMap.Some? {
            groupMap := Insert(groupMap, currentNameMap.value, ItemOf(l).value);
          }
        }
        k := k + 1;
      }
    }

    /** The item's value, else the environment's, else the default. `getenv` is the process environment. */
    method Get(group: string, item: string, defaultValue: string, envName: string, getenv: string -> Option<string>)
      returns (value: string)
      ensures value == match Find(groupMap, group, item)
                       case Some(v) => v
                       case None =>
                         if envName != "" && getenv(envName).Some? then getenv(envName).value else defaultValue
    {
      if group in groupMap {
        if item in groupMap[group] {
          return groupMap[group][item];
        }
      }
      if envName != "" {
        var env := getenv(envName);
        if env.Some? {
          return env.value;
        }
      }
      return defaultValue;
    }

    method Set(s: Setting)
      modifies this`groupMap
      ensures groupMap == WithSetting(old(groupMap), s)
    {
      if s.group !in groupMap {
        groupMap := groupMap[s.group := map[]];
      }
      groupMap := groupMap[s.group := groupMap[s.group][s.item := s.value]];
    }

    /** One setting, in memory and on disk. */
    method Put(s: Setting)
      requires OneLine(s)
      modifies this
      ensures groupMap == WithSetting(old(groupMap), s) && disk == Rewritten(old(disk), s)
      ensures old(Agrees()) ==> (Agrees() <==> ReadsBack(s))
    {
      Set(s);
      AgreesIffReadsBack(disk, s);
      disk := Rewrite(s, disk);
    }

    /** The file streamed line by line to its replacement. */
    static method Rewrite(s: Setting, input: seq<Line>) returns (out: seq<Line>)
      requires OneLine(s)
      ensures out == Rewritten(input, s)
    {
      var k, foundGroup := CopyToHeader(s.group, input);
      var itemWritten := false;
      out := input[..k];
      if foundGroup {
        var section, copied;
        section, copied, itemWritten := CopySection(s, input[k..]);
        out := out + (section + input[k..][copied..]);
      }
      RewrittenIs(s, input, k, foundGroup);
      if !itemWritten {
        out := AppendSection(s, out);
      }
    }

    /** A header and the item at the end of the file. */
    static method AppendSection(s: Setting, lines: seq<Line>) returns (out: seq<Line>)
      ensures out == lines + Appendix(s)
    {
      out := lines + [GroupLine(s.group)];
      out := out + [ItemLine(s.item, s.value)];
    }

    /** The lines up to and with the group's first header, which are copied. */
    static method CopyToHeader(group: string, input: seq<Line>) returns (k: nat, foundGroup: bool)
      ensures foundGroup == (HeaderIndex(input, group) < |input|)
      ensures k == if foundGroup then HeaderIndex(input, group) + 1 else |input|
    {
      k, foundGroup := 0, false;
      while k < |input| && !foundGroup
        invariant k <= |input|
        invariant if foundGroup then k > 0 && HeaderIndex(input, group) == k - 1
                  else HeaderIndex(input, group) == k + HeaderIndex(input[k..], group)
        decreases |input| - k, !foundGroup
      {
        assert input[k..][0] == input[k] && input[k..][1..] == input[k + 1..];
        foundGroup := GroupOf(input[k]) == Some(group);
        k := k + 1;
      }
    }

    /** From the line after the header: copy until the item or the next group, and write the item there. */
    static method CopySection(s: Setting, input: seq<Line>) returns (out: seq<Line>, k: nat, itemWritten: bool)
      ensures k <= |input| && itemWritten == SectionWritten(input, s)
      ensures out + input[k..] == SectionText(input, s)
    {
      out, k, itemWritten := [], 0, false;
      ghost var lines := input;
      while k < |input| && !itemWritten
        invariant k <= |input| && lines == input[k..]
        invariant if itemWritten then SectionWritten(input, s) && out + lines == SectionText(input, s)
                  else SectionWritten(input, s) == SectionWritten(lines, s)
                       && out + SectionText(lines, s) == SectionText(input, s)
        decreases |input| - k, !itemWritten
      {
        var l := input[k];
        ghost var rest := input[k + 1..];
        assert lines[0] == l && lines[1..] == rest;
        k := k + 1;
        if GroupOf(l).Some? {
          PutBefore(out, lines, s);
          out := out + [ItemLine(s.item, s.value)];
          out := out + [l];
          itemWritten := true;
        } else if DefinesItem(l, s) {
          PutOver(out, lines, s);
          out := out + [ItemLine(s.item, s.value)];
          itemWritten := true;
        } else {
          Copied(out, lines, s);
          out := out + [l];
        }
        lines := rest;
      }
    }
  }

  // ----- any number of puts

  function PutAll(lines: seq<Line>, puts: seq<Setting>): seq<Line>
  {
    if puts == [] then lines
    else
      var l := |puts| - 1;
      Rewritten(PutAll(lines, puts[..l]), puts[l])
  }

  /** The last value put for an item, else what the file first defined. */
  function LastPut(puts: seq<Setting>, group: string, item: string, original: Option<string>): Option<string>
  {
    if puts == [] then original
    else
      var p := puts[|puts| - 1];
      if p.group == group && p.item == item then Some(p.value) else LastPut(puts[..|puts| - 1], group, item, original)
  }

  /**
    After any puts, reading the file afresh finds the last value put for each item, and for every item not put the
    original's first definition.
   */
  lemma {:induction false} PutsAreRead(lines: seq<Line>, puts: seq<Setting>, group: string, item: string)
    requires forall k :: 0 <= k < |puts| ==> Legal(puts[k]) && (puts[k].value == "" || puts[k].value[0] != ' ')
    ensures FirstDefinition(PutAll(lines, puts), 0, group, item)
         == LastPut(puts, group, item, FirstDefinition(lines, 0, group, item))
    decreases |puts|
  {
    if puts != [] {
      var l := |puts| - 1;
      var earlier := PutAll(lines, puts[..l]);
      PutsAreRead(lines, puts[..l], group, item);
      AgreesIffNoLeadingSpace(earlier, puts[l]);
      ParsedIsFirstDefinition(earlier, group, item);
      ParsedIsFirstDefinition(Rewritten(earlier, puts[l]), group, item);
    }
  }
}
