/**
  What path expansion recognises, told from the characters: references, names that are not defined, and the options
  between braces.
 */
module ExpansionReading {
  import opened Splitting
  import opened Expansion

  // ----- references

  /** A dollar and an opening sign, at least one character that is no closing sign, and a closing sign. */
  lemma MatchIs(s: string, i: nat)
    requires i < |s|
    ensures MatchesAt(s, i) <==> s[i] == '$' && i + 2 < |s| && (s[i + 1] == '{' || s[i + 1] == '(')
                                 && s[i + 2] != '}' && s[i + 2] != ')' && ('}' in s[i + 3..] || ')' in s[i + 3..])
  {
    if i + 2 < |s| {
      var j := FindSeparator(s, CLOSERS, i + 2);
      var rest := s[i + 3..];
      if i + 2 < j {
        assert forall k :: 0 <= k < |rest| ==> rest[k] == s[i + 3 + k];
        assert j < |s| ==> rest[j - (i + 3)] == s[j];
      }
    }
  }

  lemma ReferenceText(pre: string, open: char, name: string, close: char, post: string)
    ensures var s, n, j := (pre + ['$', open]) + (name + [close]) + post, |pre| + 2, |pre| + 2 + |name|;
            && j < |s| && s[|pre|] == '$' && s[|pre| + 1] == open && s[j] == close
            && s[..|pre|] == pre && s[n..j] == name && s[j + 1..] == post
  {
    var front, back := pre + ['$', open], name + [close];
    var s, n, j := front + back + post, |pre| + 2, |pre| + 2 + |name|;
    assert forall k :: 0 <= k < |pre| ==> s[k] == pre[k];
    assert forall k :: n <= k < j ==> s[k] == name[k - n];
  }

  /** A reference behind text without a dollar is the match that is found, and its value takes its place. */
  lemma ReferenceReads(pre: string, open: char, name: string, close: char, post: string, value: string)
    requires '$' !in pre && (open == '{' || open == '(') && (close == '}' || close == ')')
    requires name != "" && '}' !in name && ')' !in name
    ensures var s := (pre + ['$', open]) + (name + [close]) + post;
            && FindRef(s, 0) == |pre| && MatchesAt(s, |pre|) && MatchedName(s, |pre|) == name
            && Substitute(s, |pre|, value) == pre + value + post
  {
    ReferenceText(pre, open, name, close, post);
    ReferenceIn((pre + ['$', open]) + (name + [close]) + post, pre, name, post, value);
  }

  lemma ReferenceIn(s: string, pre: string, name: string, post: string, value: string)
    requires '$' !in pre && name != "" && '}' !in name && ')' !in name
    requires var n, j := |pre| + 2, |pre| + 2 + |name|;
             && j < |s| && s[|pre|] == '$' && (s[|pre| + 1] == '{' || s[|pre| + 1] == '(')
             && (s[j] == '}' || s[j] == ')') && s[..|pre|] == pre && s[n..j] == name && s[j + 1..] == post
    ensures FindRef(s, 0) == |pre| && MatchesAt(s, |pre|) && MatchedName(s, |pre|) == name
    ensures Substitute(s, |pre|, value) == pre + value + post
  {
    var n, j := |pre| + 2, |pre| + 2 + |name|;
    assert forall k :: n <= k < j ==> s[k] == s[n..j][k - n];
    FindIs(s, |pre|, j);
  }

  /** Without a dollar nothing is found. */
  lemma NoReference(s: string)
    requires '$' !in s
    ensures FindRef(s, 0) == |s|
  {
  }

  /** A name without a definition is put between marks. */
  lemma UnknownIsMarked(name: string, open: char, close: char, vars: Vars, level: nat)
    requires Acyclic(vars) && name !in vars.defs
    ensures Meaning([Ref(open, name, close)], vars, level) == "__" + name + "_undefined__"
  {
    var tokens := [Ref(open, name, close)];
    assert tokens[1..] == [];
    assert ("__" + name + "_undefined__") + "" == "__" + name + "_undefined__";
  }

  // ----- braces

  ghost predicate IsOption(s: string)
  {
    ',' !in s && '{' !in s && '}' !in s
  }

  lemma {:induction false} JoinedOptions(options: seq<string>)
    requires forall k :: 0 <= k < |options| ==> IsOption(options[k])
    ensures '{' !in Join(options, ',') && '}' !in Join(options, ',')
  {
    if |options| > 1 {
      JoinedOptions(options[1..]);
    }
  }

  lemma ShortSplits()
    ensures Split("", {','}) == [""] && Split(",", {','}) == ["", ""]
  {
    assert Split("", {','}) == [""] && ","[1..] == "";
  }

  lemma LongPieces(c: string, options: seq<string>)
    requires Split(c, {','}) == options && options != [""] && options != ["", ""]
    ensures Pieces(c, COMMA) == options
  {
    ShortSplits();
    assert |c| == 1 && c[0] == ',' ==> c == ",";
  }

  lemma NotShort(options: seq<string>, k: nat)
    requires k < |options| && options[k] != ""
    ensures options != [""] && options != ["", ""]
  {
  }

  lemma OptionsAreSplit(options: seq<string>)
    requires (exists k :: 0 <= k < |options| && options[k] != "")
    requires forall k :: 0 <= k < |options| ==> IsOption(options[k])
    ensures Pieces(Join(options, ','), COMMA) == options
  {
    var k :| 0 <= k < |options| && options[k] != "";
    NotShort(options, k);
    JoinSplits(options, ',');
    LongPieces(Join(options, ','), options);
  }

  lemma {:induction false} CombineOne(options: seq<string>, post: string)
    ensures |Combine(options, [post])| == |options|
    ensures forall k :: 0 <= k < |options| ==> Combine(options, [post])[k] == options[k] + post
  {
    if options != [] {
      CombineOne(options[1..], post);
    }
  }

  /** A group gives one result for each of the options between its commas, in their order. */
  lemma OptionsExpand(pre: string, options: seq<string>, post: string)
    requires '{' !in pre && '{' !in post && exists k :: 0 <= k < |options| && options[k] != ""
    requires forall k :: 0 <= k < |options| ==> IsOption(options[k])
    ensures var r := ExpandBraces((pre + ("{" + Join(options, ',') + "}")) + post);
            |r| == |options| && forall k :: 0 <= k < |options| ==> r[k] == pre + (options[k] + post)
  {
    JoinedOptions(options);
    OptionsAreSplit(options);
    CombineOne(options, post);
    OneGroupExpands(pre, Join(options, ','), post);
  }
}
