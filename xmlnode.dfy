/** The regex "XML" extractor of xmlnode.py.

    `parse(node, content)` runs `<node\s*(.*?)>(.*)</node>` with DOTALL and
    `element_names` repeatedly runs `<(\w+)\s*(.*?)>`.  Neither is modelled
    as a general regex engine: each pattern becomes the precise search it
    performs.  For the first one, at the leftmost position where it can
    match, the attributes run from the end of the whitespace after the name
    to the first `>`, and the (greedy) text runs from there to the LAST
    closing tag of the content. */
module XmlNode {

  import opened Errors
  import opened Strings

  /** The name, attributes and stripped text of one parsed node. */
  datatype Node = Node(name: string, attrs: string, text: string)

  /** Where one match of the node pattern lies in the content: the `<` of
      the start tag, the first character of the attributes, the `>` that
      ends the start tag, and the `<` of the closing tag. */
  datatype Match = Match(start: nat, attrStart: nat, gt: nat, close: nat)

  /** A character with a meaning of its own in a Python regex. */
  predicate IsRegexMeta(c: char)
  {
    c == '.' || c == '^' || c == '$' || c == '*' || c == '+' || c == '?' || c == '{' || c == '}'
    || c == '[' || c == ']' || c == '\\' || c == '|' || c == '(' || c == ')'
  }

  /** A node name that `re` matches literally when it is pasted into the
      pattern unescaped. */
  predicate IsLiteralName(node: string)
  {
    forall k :: 0 <= k < |node| ==> !IsRegexMeta(node[k])
  }

  predicate IsWordName(name: string)
  {
    forall k :: 0 <= k < |name| ==> IsWordChar(name[k])
  }

  function OpenTag(node: string): string { "<" + node }

  function CloseTag(node: string): string { "</" + node + ">" }

  /** The length of the run of whitespace that starts at `i`, as `\s*`
      takes it. */
  function SpaceRun(s: string, i: nat): (n: nat)
    requires i <= |s|
    decreases |s| - i
    ensures i + n <= |s|
  {
    if i < |s| && IsSpace(s[i]) then 1 + SpaceRun(s, i + 1) else 0
  }

  /** `SpaceRun` takes all of the whitespace and nothing else. */
  lemma {:induction false} SpaceRunSpec(s: string, i: nat)
    requires i <= |s|
    decreases |s| - i
    ensures var n := SpaceRun(s, i);
      AllSpace(s[i..i + n]) && (i + n < |s| ==> !IsSpace(s[i + n]))
    ensures forall k :: i <= k < i + SpaceRun(s, i) ==> IsSpace(s[k])
  {
    if i < |s| && IsSpace(s[i]) {
      SpaceRunSpec(s, i + 1);
      var n := SpaceRun(s, i + 1);
      assert s[i..i + 1 + n] == [s[i]] + s[i + 1..i + 1 + n];
    }
  }

  /** The last occurrence of `pat` that starts in `[lo, hi]`. */
  function LastAt(s: string, pat: string, lo: nat, hi: nat): (r: Option<nat>)
    decreases hi
    ensures r.Some? ==> lo <= r.value <= hi && IsAt(s, pat, r.value)
  {
    if hi < lo then None
    else if IsAt(s, pat, hi) then Some(hi)
    else if hi == 0 then None
    else LastAt(s, pat, lo, hi - 1)
  }

  /** `LastAt` finds the LAST occurrence in the range, and reports none
      only when there is none. */
  lemma {:induction false} LastAtSpec(s: string, pat: string, lo: nat, hi: nat)
    decreases hi
    ensures var r := LastAt(s, pat, lo, hi);
      r.Some? ==> forall j :: r.value < j <= hi ==> !IsAt(s, pat, j)
    ensures LastAt(s, pat, lo, hi).None? ==> forall j :: lo <= j <= hi ==> !IsAt(s, pat, j)
  {
    if lo <= hi && !IsAt(s, pat, hi) && hi != 0 {
      LastAtSpec(s, pat, lo, hi - 1);
    }
  }

  /** The positions of a match lie in order inside the content. */
  predicate InBounds(s: string, m: Match)
  {
    m.start <= m.attrStart <= m.gt < m.close < |s|
  }

  /** Whether the node pattern, tried at position `i`, can match there:
      the start tag is at `i`, and some `>` after the name is followed by a
      closing tag. */
  ghost predicate Candidate(node: string, s: string, i: nat)
  {
    IsAt(s, OpenTag(node), i)
    && exists g: nat, l: nat ::
         i + |OpenTag(node)| <= g < l && IsAt(s, CloseTag(node), l) && s[g] == '>'
  }

  /** What the regex engine does at position `i`: take all the whitespace
      after the name, the shortest attribute text up to a `>`, and the
      longest text up to a closing tag. */
  function MatchAt(node: string, s: string, i: nat): (r: Option<Match>)
    ensures r.Some? ==> r.value.start == i && InBounds(s, r.value)
  {
    if !IsAt(s, OpenTag(node), i) then None
    else
      var nameEnd := i + |OpenTag(node)|;
      var a := nameEnd + SpaceRun(s, nameEnd);
      match IndexOf(s, '>', a)
      case None => None
      case Some(g) =>
        match LastAt(s, CloseTag(node), g + 1, |s|)
        case None => None
        case Some(l) => Some(Match(i, a, g, l))
  }

  /** The match the engine finds at a position fits the pattern exactly:
      whitespace, then attributes without `>`, the first `>`, then text up
      to the last closing tag. */
  ghost predicate IsMatch(node: string, s: string, m: Match)
  {
    && IsAt(s, OpenTag(node), m.start)
    && m.start + |OpenTag(node)| <= m.attrStart <= m.gt < m.close
    && IsAt(s, CloseTag(node), m.close)
    && AllSpace(s[m.start + |OpenTag(node)|..m.attrStart])
    && !IsSpace(s[m.attrStart])
    && s[m.gt] == '>'
    && '>' !in s[m.attrStart..m.gt]
    && (forall l :: m.close < l ==> !IsAt(s, CloseTag(node), l))
  }

  lemma {:induction false} MatchAtIsMatch(node: string, s: string, i: nat)
    requires MatchAt(node, s, i).Some?
    ensures MatchAt(node, s, i).value.start == i
    ensures IsMatch(node, s, MatchAt(node, s, i).value)
  {
    var m := MatchAt(node, s, i).value;
    var nameEnd := i + |OpenTag(node)|;
    SpaceRunSpec(s, nameEnd);
    IndexOfSpec(s, '>', m.attrStart);
    LastAtSpec(s, CloseTag(node), m.gt + 1, |s|);
    assert '>' !in s[m.attrStart..m.gt] by {
      forall k | 0 <= k < m.gt - m.attrStart ensures s[m.attrStart..m.gt][k] != '>' {
        assert s[m.attrStart..m.gt][k] == s[m.attrStart + k];
      }
    }
    forall l | m.close < l ensures !IsAt(s, CloseTag(node), l) {
      if l <= |s| { } else { }
    }
  }

  /** The engine's attempt at `i` succeeds exactly when the pattern can
      match at `i` at all. */
  lemma {:induction false} MatchAtIff(node: string, s: string, i: nat)
    ensures MatchAt(node, s, i).Some? <==> Candidate(node, s, i)
  {
    if MatchAt(node, s, i).Some? {
      var m := MatchAt(node, s, i).value;
      assert i + |OpenTag(node)| <= m.gt < m.close && IsAt(s, CloseTag(node), m.close) && s[m.gt] == '>';
    }
    if Candidate(node, s, i) {
      var g: nat, l: nat :| i + |OpenTag(node)| <= g < l && IsAt(s, CloseTag(node), l) && s[g] == '>';
      CandidateMatches(node, s, i, g, l);
    }
  }

  /** A start tag at `i` with a `>` at `g` and a closing tag at `l > g`
      is enough for the engine's attempt at `i` to succeed. */
  lemma {:induction false} CandidateMatches(node: string, s: string, i: nat, g: nat, l: nat)
    requires IsAt(s, OpenTag(node), i)
    requires i + |OpenTag(node)| <= g < l && IsAt(s, CloseTag(node), l) && s[g] == '>'
    ensures MatchAt(node, s, i).Some?
  {
    var nameEnd := i + |OpenTag(node)|;
    var a := nameEnd + SpaceRun(s, nameEnd);
    SpaceRunSpec(s, nameEnd);
    assert !IsSpace(s[g]);
    assert a <= g;
    IndexOfSpec(s, '>', a);
    var first := IndexOf(s, '>', a);
    assert first.Some? && first.value <= g;
    assert l <= |s|;
    LastAtSpec(s, CloseTag(node), first.value + 1, |s|);
    assert LastAt(s, CloseTag(node), first.value + 1, |s|).Some?;
  }

  /** `re.search` from position `i`: the first position where the engine's
      attempt succeeds. */
  function Search(node: string, s: string, i: nat): (r: Option<Match>)
    decreases |s| + 1 - i
    ensures r.Some? ==> i <= r.value.start && InBounds(s, r.value)
  {
    if |s| < i then None
    else if MatchAt(node, s, i).Some? then MatchAt(node, s, i)
    else Search(node, s, i + 1)
  }

  /** When `re.search` finds a match, it is the engine's attempt at the
      first position where an attempt succeeds. */
  lemma {:induction false} SearchFound(node: string, s: string, i: nat)
    decreases |s| + 1 - i
    requires Search(node, s, i).Some?
    ensures var r := Search(node, s, i);
      MatchAt(node, s, r.value.start) == r
      && forall j :: i <= j < r.value.start ==> MatchAt(node, s, j).None?
  {
    if MatchAt(node, s, i).None? {
      SearchFound(node, s, i + 1);
    }
  }

  /** When `re.search` finds nothing, no attempt at any later position
      succeeds. */
  lemma {:induction false} SearchNone(node: string, s: string, i: nat)
    decreases |s| + 1 - i
    requires Search(node, s, i).None?
    ensures forall j :: i <= j ==> MatchAt(node, s, j).None?
  {
    if |s| < i {
      forall j | i <= j ensures MatchAt(node, s, j).None? {
        assert !IsAt(s, OpenTag(node), j);
      }
    } else {
      SearchNone(node, s, i + 1);
    }
  }

  /** The match `parse` finds: `re.search` from the start of the content. */
  function FindMatch(node: string, s: string): Option<Match>
  {
    Search(node, s, 0)
  }

  /** What `parse` finds: a match exists exactly when some start tag
      `<node` is followed by a `>` and later by a closing `</node>`; it is
      at the leftmost such start tag; and it has the exact shape of the
      pattern, which determines it completely (see `MatchUnique`). */
  lemma {:induction false} FindMatchSpec(node: string, s: string)
    ensures FindMatch(node, s).Some? <==> exists i: nat :: Candidate(node, s, i)
    ensures FindMatch(node, s).Some? ==> IsMatch(node, s, FindMatch(node, s).value)
    ensures FindMatch(node, s).Some? ==>
      forall i: nat :: i < FindMatch(node, s).value.start ==> !Candidate(node, s, i)
  {
    var r := Search(node, s, 0);
    if r.Some? {
      SearchFound(node, s, 0);
      MatchAtIff(node, s, r.value.start);
      MatchAtIsMatch(node, s, r.value.start);
      forall i: nat | i < r.value.start ensures !Candidate(node, s, i) {
        MatchAtIff(node, s, i);
      }
    } else {
      SearchNone(node, s, 0);
      forall i: nat ensures !Candidate(node, s, i) {
        MatchAtIff(node, s, i);
      }
    }
  }

  /** Two matches of the pattern that begin at the same start tag are the
      same match, so the shape `FindMatch` promises leaves no choice. */
  lemma {:induction false} MatchUnique(node: string, s: string, m1: Match, m2: Match)
    requires IsMatch(node, s, m1) && IsMatch(node, s, m2) && m1.start == m2.start
    ensures m1 == m2
  {
    var nameEnd := m1.start + |OpenTag(node)|;
    assert m1.attrStart == m2.attrStart;
    assert m1.gt == m2.gt;
  }

  /** `parse(node, content)` as a value: the node's name, its attributes
      verbatim and its text with surrounding whitespace stripped. */
  function Find(node: string, s: string): Option<Node>
  {
    match FindMatch(node, s)
    case None => None
    case Some(m) => Some(Node(node, s[m.attrStart..m.gt], Strip(s[m.gt + 1..m.close])))
  }

  /** A node is found only where its start tag and its closing tag both
      occur, character for character: matching is case-sensitive. */
  lemma {:induction false} FindNeedsBothTags(node: string, s: string)
    ensures Find(node, s).Some? ==> Contains(s, OpenTag(node)) && Contains(s, CloseTag(node))
  {
    if Find(node, s).Some? {
      FindMatchSpec(node, s);
      var m := FindMatch(node, s).value;
      assert IsAt(s, OpenTag(node), m.start) && IsAt(s, CloseTag(node), m.close);
    }
  }

  lemma {:induction false} MatchIsCandidate(node: string, s: string, m: Match)
    requires IsMatch(node, s, m)
    ensures Candidate(node, s, m.start)
  {
    var g, l := m.gt, m.close;
    assert m.start + |OpenTag(node)| <= g < l && IsAt(s, CloseTag(node), l) && s[g] == '>';
  }

  /** A match of the pattern's shape that no earlier start tag could
      produce is the match `parse` finds. */
  lemma {:induction false} FindMatchIs(node: string, s: string, m: Match)
    requires IsMatch(node, s, m)
    requires forall i: nat :: i < m.start ==> !Candidate(node, s, i)
    ensures FindMatch(node, s) == Some(m)
  {
    MatchIsCandidate(node, s, m);
    FindMatchSpec(node, s);
    var r := FindMatch(node, s);
    assert r.Some?;
    var f := r.value;
    MatchIsCandidate(node, s, f);
    assert f.start == m.start;
    MatchUnique(node, s, f, m);
  }

  /** A content that is exactly one node, `<node` + whitespace + attributes
      + `>` + body + `</node>`, parses to those attributes, verbatim, and
      the stripped body, whatever tags the body itself holds. */
  lemma {:induction false} FindWholeNode(node: string, s: string, ws: string, attrs: string, body: string)
    requires s == OpenTag(node) + ws + attrs + ">" + body + CloseTag(node)
    requires AllSpace(ws)
    requires attrs != [] ==> !IsSpace(attrs[0])
    requires '>' !in attrs
    ensures Find(node, s) == Some(Node(node, attrs, Strip(body)))
  {
    var n := |OpenTag(node)|;
    var a := n + |ws|;
    var g := a + |attrs|;
    var c := g + 1 + |body|;
    assert |s| == c + |CloseTag(node)|;
    assert s[..n] == OpenTag(node);
    assert s[n..a] == ws;
    assert s[a..g] == attrs;
    assert s[g] == '>';
    assert s[g + 1..c] == body;
    assert s[c..c + |CloseTag(node)|] == CloseTag(node);
    var m := Match(0, a, g, c);
    assert IsMatch(node, s, m);
    FindMatchIs(node, s, m);
  }

  /** The text is greedy: two sibling nodes of the same name are read as one
      node whose text runs from the first start tag to the last end tag. */
  lemma {:induction false} FindMergesSiblings(node: string, s: string, x: string, y: string)
    requires s == OpenTag(node) + ">" + x + CloseTag(node) + OpenTag(node) + ">" + y + CloseTag(node)
    ensures Find(node, s) == Some(Node(node, "", Strip(x + CloseTag(node) + OpenTag(node) + ">" + y)))
  {
    var body := x + CloseTag(node) + OpenTag(node) + ">" + y;
    assert s == OpenTag(node) + "" + "" + ">" + body + CloseTag(node);
    FindWholeNode(node, s, "", "", body);
  }

  // ------------------------------------------------------------------
  // Element names: `<(\w+)\s*(.*?)>` searched again and again.
  // ------------------------------------------------------------------

  /** The element pattern matches at the very start of `t`: a `<`, at least
      one word character, and a `>` somewhere after them. */
  predicate IsTagOpen(t: string)
  {
    |t| >= 2 && t[0] == '<' && IsWordChar(t[1]) && '>' in t[2..]
  }

  /** The length of the run of word characters that starts at `i`, as
      `\w+` takes it. */
  function WordRun(s: string, i: nat): (n: nat)
    requires i <= |s|
    decreases |s| - i
    ensures i + n <= |s|
    ensures forall k :: i <= k < i + n ==> IsWordChar(s[k])
    ensures i + n < |s| ==> !IsWordChar(s[i + n])
  {
    if i < |s| && IsWordChar(s[i]) then 1 + WordRun(s, i + 1) else 0
  }

  /** The name captured by the element pattern at the start of `t`. */
  function NameOf(t: string): (name: string)
    requires IsTagOpen(t)
    ensures name != [] && IsWordName(name)
    ensures 1 + |name| <= |t| && name == t[1..1 + |name|]
  {
    t[1..1 + WordRun(t, 1)]
  }

  /** Reference definition of `element_names`: look at every position of
      the content, left to right, and list the name of each start tag
      there; duplicates stay, `</x>` and `<?xml` are not start tags. */
  function AllTags(s: string): (names: seq<string>)
    ensures forall n :: n in names ==> n != [] && IsWordName(n)
  {
    if s == [] then []
    else (if IsTagOpen(s) then [NameOf(s)] else []) + AllTags(s[1..])
  }

  /** `re.search` of the element pattern: the leftmost position where it
      matches. */
  function FirstTag(s: string, i: nat): (r: Option<nat>)
    decreases |s| - i
    ensures r.Some? ==> i <= r.value < |s| && IsTagOpen(s[r.value..])
    ensures r.Some? ==> forall j :: i <= j < r.value ==> !IsTagOpen(s[j..])
    ensures r.None? ==> forall j :: i <= j <= |s| ==> !IsTagOpen(s[j..])
  {
    if |s| <= i then None
    else if IsTagOpen(s[i..]) then Some(i)
    else FirstTag(s, i + 1)
  }

  /** Positions where no start tag begins contribute nothing. */
  lemma {:induction false} SkipNonTags(s: string, j: nat)
    requires j <= |s|
    requires forall i :: 0 <= i < j ==> !IsTagOpen(s[i..])
    ensures AllTags(s) == AllTags(s[j..])
    decreases j
  {
    if j > 0 {
      assert s[0..] == s;
      forall i | 0 <= i < j - 1 ensures !IsTagOpen(s[1..][i..]) {
        assert s[1..][i..] == s[i + 1..];
      }
      SkipNonTags(s[1..], j - 1);
      assert s[1..][j - 1..] == s[j..];
    }
  }

  /** One round of the loop in `element_names`: the first start tag found
      gives the next name, and the scan resumes right after that name. */
  lemma {:induction false} AllTagsStep(s: string, k: nat)
    requires FirstTag(s, 0) == Some(k)
    ensures var name := NameOf(s[k..]);
      k + 1 + |name| <= |s| && AllTags(s) == [name] + AllTags(s[k + 1 + |name|..])
  {
    hide FirstTag;
    hide AllTags;
    hide IsTagOpen;
    SkipNonTags(s, k);
    var t := s[k..];
    AllTagsAtTag(t);
    var name := NameOf(t);
    var u := t[1..];
    assert name == u[..|name|];
    NameHoldsNoTag(u, name);
    SkipNonTags(u, |name|);
    assert u[|name|..] == s[k + 1 + |name|..];
  }

  /** A start tag at the front gives the first name. */
  lemma {:induction false} AllTagsAtTag(t: string)
    requires IsTagOpen(t)
    ensures AllTags(t) == [NameOf(t)] + AllTags(t[1..])
  {
  }

  /** No start tag begins inside a name, since a name holds no `<`. */
  lemma {:induction false} NameHoldsNoTag(u: string, name: string)
    requires |name| <= |u| && name == u[..|name|] && IsWordName(name)
    ensures forall i :: 0 <= i < |name| ==> !IsTagOpen(u[i..])
  {
    forall i | 0 <= i < |name| ensures !IsTagOpen(u[i..]) {
      assert IsWordChar(name[i]);
      assert u[i..][0] == name[i] != '<';
    }
  }

  lemma {:induction false} NoTagNoNames(s: string)
    requires FirstTag(s, 0).None?
    ensures AllTags(s) == []
  {
    SkipNonTags(s, |s|);
    assert s[|s|..] == [];
  }

  lemma {:induction false} WordNameIsLiteral(name: string)
    requires IsWordName(name)
    ensures IsLiteralName(name)
  {
  }

  /** An `xmlnode` object: it remembers what its last `parse` found. */
  class XmlNode {
    var name: string
    var attrs: string
    var text: string

    constructor ()
      ensures name == "" && attrs == "" && text == ""
    {
      name, attrs, text := "", "", "";
    }

    /** `node_name()`. */
    function NodeName(): (r: string)
      reads this
      ensures r == name
    {
      name
    }

    /** `node_attrs()`. */
    function NodeAttrs(): (r: string)
      reads this
      ensures r == attrs
    {
      attrs
    }

    /** `node_text()`. */
    function NodeText(): (r: string)
      reads this
      ensures r == text
    {
      text
    }

    /** `parse(node, content)`: overwrite all three fields with what the
        node pattern finds; on failure the name is still `node` and the
        attributes and text are empty. */
    method Parse(node: string, content: string) returns (found: bool)
      requires IsLiteralName(node)
      modifies this
      ensures found == Find(node, content).Some?
      ensures name == node
      ensures found ==> attrs == Find(node, content).value.attrs
      ensures found ==> text == Find(node, content).value.text
      ensures !found ==> attrs == "" && text == ""
    {
      var r := Find(node, content);
      if r.Some? {
        name := node;
        attrs := r.value.attrs;
        text := r.value.text;
        found := true;
      } else {
        name := node;
        attrs := "";
        text := "";
        found := false;
      }
    }

    /** `element_names(content)`: search, record the name, cut the content
        just after the name, and search again, until nothing matches. */
    method ElementNames(content: string) returns (names: seq<string>)
      ensures names == AllTags(content)
      ensures forall n :: n in names ==> n != [] && IsWordName(n)
    {
      names := [];
      var rest := content;
      var m := FirstTag(rest, 0);
      while m.Some?
        invariant m == FirstTag(rest, 0)
        invariant names + AllTags(rest) == AllTags(content)
        decreases |rest|
      {
        var k := m.value;
        AllTagsStep(rest, k);
        var name := NameOf(rest[k..]);
        names := names + [name];
        rest := rest[k + 1 + |name|..];
        m := FirstTag(rest, 0);
      }
      NoTagNoNames(rest);
    }
  }
}
