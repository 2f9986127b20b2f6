/** The chapter HTML sanitiser: a streaming filter over parser events, checked
    against a recursive prune of the document tree. */
module Sanitizer {
  import opened Options

  type Attr = (string, Option<string>)

  /** What the HTML parser reports. */
  datatype Event =
    | StartTag(tag: string, attrs: seq<Attr>)
    | EndTag(tag: string)
    | Data(text: string)
    | Comment(text: string)
    | Decl(text: string)

  const SAFE_TAGS: set<string> := {
    "p", "div",
    "h1", "h2", "h3", "h4", "h5", "h6",
    "ul", "ol", "li", "blockquote", "pre", "code", "hr", "br",
    "em", "strong", "a", "img", "span",
    "del", "ins", "sub", "sup",
    "table", "thead", "tbody", "tfoot", "tr", "th", "td", "caption",
    "figure", "figcaption"
  }

  const SAFE_ATTRS: set<string> := {
    "class", "id",
    "href", "src", "alt", "title", "target", "rel",
    "colspan", "rowspan", "align", "valign",
    "width", "height", "start", "type"
  }

  const VOID_TAGS: set<string> := {"br", "hr", "img"}
  const URL_ATTRS: set<string> := {"href", "src"}
  const SUPPRESS_TAGS: set<string> := {"script", "style", "noscript", "iframe", "object", "embed"}

  // ---- URLs ----

  /** The characters removed before the scheme check. */
  predicate Ignorable(c: char) {
    c <= ' ' || '\U{7F}' <= c <= '\U{9F}'
  }

  function Collapse(url: string): string {
    if url == "" then ""
    else if Ignorable(url[0]) then Collapse(url[1..])
    else [url[0]] + Collapse(url[1..])
  }

  /** `re.IGNORECASE` on a lower-case ASCII letter or ':' of the pattern. */
  predicate CaseMatches(p: char, c: char) {
    || c == p
    || ('a' <= p <= 'z' && 'A' <= c <= 'Z' && c as int - 'A' as int == p as int - 'a' as int)
    || (p == 's' && c == '\U{17F}')
    || (p == 'i' && (c == '\U{130}' || c == '\U{131}'))
  }

  predicate StartsLike(pattern: string, s: string) {
    |pattern| <= |s| && forall i :: 0 <= i < |pattern| ==> CaseMatches(pattern[i], s[i])
  }

  predicate UnsafeScheme(url: string) {
    var n := Collapse(url);
    StartsLike("javascript:", n) || StartsLike("vbscript:", n) || StartsLike("data:", n)
  }

  /** `_safe_url` */
  function SafeUrl(url: string): string {
    if UnsafeScheme(url) then "#" else url
  }

  /** No URL that leaves the filter has a dangerous scheme, a safe URL leaves
      unchanged, and filtering again changes nothing. */
  lemma SafeUrlIsSafe(url: string)
    ensures !UnsafeScheme(SafeUrl(url))
    ensures !UnsafeScheme(url) ==> SafeUrl(url) == url
    ensures SafeUrl(SafeUrl(url)) == SafeUrl(url)
  {
    assert Collapse("#") == ['#'] + Collapse("#"[1..]);
  }

  // ---- Escaping ----

  function EscapeChar(c: char, quote: bool): string {
    if c == '&' then "&amp;"
    else if c == '<' then "&lt;"
    else if c == '>' then "&gt;"
    else if quote && c == '"' then "&quot;"
    else if quote && c == '\'' then "&#x27;"
    else [c]
  }

  /** `html.escape` */
  function Escape(s: string, quote: bool): string {
    if s == "" then "" else EscapeChar(s[0], quote) + Escape(s[1..], quote)
  }

  // ---- Attributes ----

  function LowerChar(c: char): char {
    if 'A' <= c <= 'Z' then (c as int - 'A' as int + 'a' as int) as char else c
  }

  function Lower(s: string): string {
    seq(|s|, i requires 0 <= i < |s| => LowerChar(s[i]))
  }

  predicate KeptAttr(name: string) {
    !("on" <= name) && name in SAFE_ATTRS
  }

  function CleanValue(name: string, value: Option<string>): string {
    var v := if value.None? then "" else value.value;
    if name in URL_ATTRS then SafeUrl(v) else v
  }

  function CleanAttrs(attrs: seq<Attr>): seq<(string, string)> {
    if attrs == [] then []
    else
      var before := CleanAttrs(attrs[..|attrs| - 1]);
      var (raw, value) := attrs[|attrs| - 1];
      var name := Lower(raw);
      if KeptAttr(name) then before + [(name, CleanValue(name, value))] else before
  }

  function PrintAttr(a: (string, string)): string {
    " " + a.0 + "=\"" + Escape(a.1, true) + "\""
  }

  function PrintAttrs(attrs: seq<(string, string)>): string {
    if attrs == [] then "" else PrintAttrs(attrs[..|attrs| - 1]) + PrintAttr(attrs[|attrs| - 1])
  }

  function PrintStart(tag: string, attrs: seq<(string, string)>): string {
    "<" + tag + PrintAttrs(attrs) + ">"
  }

  function PrintEnd(tag: string): string {
    "</" + tag + ">"
  }

  // ---- The streaming filter ----

  function NextDepth(depth: nat, e: Event): nat {
    match e
    case StartTag(tag, _) => if tag in SUPPRESS_TAGS then depth + 1 else depth
    case EndTag(tag) => if tag in SUPPRESS_TAGS && depth > 0 then depth - 1 else depth
    case _ => depth
  }

  function Emit(depth: nat, e: Event): string {
    match e
    case StartTag(tag, attrs) =>
      if tag in SUPPRESS_TAGS || depth > 0 || tag !in SAFE_TAGS then "" else PrintStart(tag, CleanAttrs(attrs))
    case EndTag(tag) =>
      if tag in SUPPRESS_TAGS || depth > 0 || tag !in SAFE_TAGS || tag in VOID_TAGS then "" else PrintEnd(tag)
    case Data(text) => if depth == 0 then Escape(text, false) else ""
    case _ => ""
  }

  function FinalDepth(depth: nat, events: seq<Event>): nat
    decreases |events|
  {
    if events == [] then depth else FinalDepth(NextDepth(depth, events[0]), events[1..])
  }

  function Output(depth: nat, events: seq<Event>): string
    decreases |events|
  {
    if events == [] then "" else Emit(depth, events[0]) + Output(NextDepth(depth, events[0]), events[1..])
  }

  function Concat(parts: seq<string>): string {
    if parts == [] then "" else Concat(parts[..|parts| - 1]) + parts[|parts| - 1]
  }

  class Filter {
    var out: seq<string>
    var suppressDepth: nat

    constructor ()
      ensures out == [] && suppressDepth == 0
    {
      out := [];
      suppressDepth := 0;
    }

    method HandleStartTag(tag: string, attrs: seq<Attr>)
      modifies this
      ensures suppressDepth == NextDepth(old(suppressDepth), StartTag(tag, attrs))
      ensures Concat(out) == old(Concat(out)) + Emit(old(suppressDepth), StartTag(tag, attrs))
    {
      if tag in SUPPRESS_TAGS {
        suppressDepth := suppressDepth + 1;
        return;
      }
      if suppressDepth > 0 || tag !in SAFE_TAGS {
        return;
      }
      var parts := RenderStart(tag, attrs);
      ConcatAppend(out, parts);
      out := out + [parts];
    }

    method HandleEndTag(tag: string)
      modifies this
      ensures suppressDepth == NextDepth(old(suppressDepth), EndTag(tag))
      ensures Concat(out) == old(Concat(out)) + Emit(old(suppressDepth), EndTag(tag))
    {
      if tag in SUPPRESS_TAGS {
        if suppressDepth > 0 {
          suppressDepth := suppressDepth - 1;
        }
        return;
      }
      if suppressDepth > 0 || tag !in SAFE_TAGS || tag in VOID_TAGS {
        return;
      }
      var part := "</" + tag + ">";
      ConcatAppend(out, part);
      out := out + [part];
    }

    method HandleData(data: string)
      modifies this
      ensures suppressDepth == old(suppressDepth)
      ensures Concat(out) == old(Concat(out)) + Emit(old(suppressDepth), Data(data))
    {
      if suppressDepth == 0 {
        ConcatAppend(out, Escape(data, false));
        out := out + [Escape(data, false)];
      }
    }

    /** The parser's dispatch over a whole document. */
    method Feed(events: seq<Event>)
      modifies this
      ensures suppressDepth == FinalDepth(old(suppressDepth), events)
      ensures Concat(out) == old(Concat(out)) + Output(old(suppressDepth), events)
    {
      ghost var before := Concat(out);
      ghost var depth := suppressDepth;
      assert before + "" == before;
      for i := 0 to |events|
        invariant suppressDepth == FinalDepth(depth, events[..i])
        invariant Concat(out) == before + Output(depth, events[..i])
      {
        OutputPrefix(depth, events, i, before);
        Handle(events[i]);
      }
      assert events[..|events|] == events;
    }

    method Handle(event: Event)
      modifies this
      ensures suppressDepth == NextDepth(old(suppressDepth), event)
      ensures Concat(out) == old(Concat(out)) + Emit(old(suppressDepth), event)
    {
      match event {
        case StartTag(tag, attrs) => HandleStartTag(tag, attrs);
        case EndTag(tag) => HandleEndTag(tag);
        case Data(text) => HandleData(text);
        case Comment(_) =>
        case Decl(_) =>
      }
    }
  }

  lemma ConcatAppend(parts: seq<string>, part: string)
    ensures Concat(parts + [part]) == Concat(parts) + part
  {
    assert (parts + [part])[..|parts|] == parts;
  }

  /** The attribute loop of `handle_starttag`. */
  method RenderStart(tag: string, attrs: seq<Attr>) returns (html: string)
    ensures html == PrintStart(tag, CleanAttrs(attrs))
  {
    var parts := "";
    for i := 0 to |attrs|
      invariant parts == PrintAttrs(CleanAttrs(attrs[..i]))
    {
      assert attrs[..i + 1][..i] == attrs[..i];
      var n := Lower(attrs[i].0);
      if "on" <= n || n !in SAFE_ATTRS {
        continue;
      }
      var v := if attrs[i].1.None? then "" else attrs[i].1.value;
      if n in URL_ATTRS {
        v := SafeUrl(v);
      }
      PrintAttrsAppend(CleanAttrs(attrs[..i]), (n, v));
      parts := parts + (" " + n + "=\"" + Escape(v, true) + "\"");
    }
    assert attrs[..|attrs|] == attrs;
    html := "<" + tag + parts + ">";
  }

  lemma OutputOne(depth: nat, e: Event)
    ensures Output(depth, [e]) == Emit(depth, e)
    ensures FinalDepth(depth, [e]) == NextDepth(depth, e)
  {
    assert [e][1..] == [];
    assert Output(NextDepth(depth, e), []) == "";
  }

  lemma OutputAppend(depth: nat, events: seq<Event>, e: Event)
    ensures Output(depth, events + [e]) == Output(depth, events) + Emit(FinalDepth(depth, events), e)
    ensures FinalDepth(depth, events + [e]) == NextDepth(FinalDepth(depth, events), e)
  {
    Concatenate(depth, events, [e]);
    OutputOne(FinalDepth(depth, events), e);
  }

  lemma PrintAttrsAppend(attrs: seq<(string, string)>, a: (string, string))
    ensures PrintAttrs(attrs + [a]) == PrintAttrs(attrs) + PrintAttr(a)
  {
    assert (attrs + [a])[..|attrs|] == attrs;
  }

  lemma OutputPrefix(depth: nat, events: seq<Event>, i: nat, before: string)
    requires i < |events|
    ensures var now := FinalDepth(depth, events[..i]);
            && FinalDepth(depth, events[..i + 1]) == NextDepth(now, events[i])
            && before + Output(depth, events[..i + 1]) == before + Output(depth, events[..i]) + Emit(now, events[i])
  {
    var done := events[..i];
    assert done + [events[i]] == events[..i + 1];
    OutputAppend(depth, done, events[i]);
    Regroup(before, Output(depth, done), Emit(FinalDepth(depth, done), events[i]));
  }

  /** `_sanitize_html`, after parsing. */
  method Sanitize(events: seq<Event>) returns (html: string)
    ensures html == Output(0, events)
  {
    var filter := new Filter();
    filter.Feed(events);
    html := Concat(filter.out);
  }

  lemma {:induction false} ConcatenateDepth(depth: nat, a: seq<Event>, b: seq<Event>)
    ensures FinalDepth(depth, a + b) == FinalDepth(FinalDepth(depth, a), b)
    decreases |a|
  {
    if a == [] {
      assert a + b == b;
    } else {
      assert (a + b)[0] == a[0] && (a + b)[1..] == a[1..] + b;
      ConcatenateDepth(NextDepth(depth, a[0]), a[1..], b);
    }
  }

  lemma {:induction false} ConcatenateOutput(depth: nat, a: seq<Event>, b: seq<Event>)
    ensures Output(depth, a + b) == Output(depth, a) + Output(FinalDepth(depth, a), b)
    decreases |a|
  {
    if a == [] {
      assert a + b == b;
    } else {
      var next := NextDepth(depth, a[0]);
      ConcatenateOutput(next, a[1..], b);
      OutputFirst(depth, a[0], a[1..] + b);
      assert [a[0]] + (a[1..] + b) == a + b;
      Regroup(Emit(depth, a[0]), Output(next, a[1..]), Output(FinalDepth(next, a[1..]), b));
    }
  }

  lemma OutputFirst(depth: nat, e: Event, rest: seq<Event>)
    ensures Output(depth, [e] + rest) == Emit(depth, e) + Output(NextDepth(depth, e), rest)
  {
    assert ([e] + rest)[1..] == rest;
  }

  lemma Regroup(a: string, b: string, c: string)
    ensures (a + b) + c == a + (b + c)
  {
  }

  lemma Concatenate(depth: nat, a: seq<Event>, b: seq<Event>)
    ensures Output(depth, a + b) == Output(depth, a) + Output(FinalDepth(depth, a), b)
    ensures FinalDepth(depth, a + b) == FinalDepth(FinalDepth(depth, a), b)
  {
    ConcatenateOutput(depth, a, b);
    ConcatenateDepth(depth, a, b);
  }

  // ---- Documents as trees ----

  /** `Single` is a start tag that is never closed, such as `<br>`. */
  datatype Node =
    | Elem(tag: string, attrs: seq<Attr>, kids: seq<Node>)
    | Single(tag: string, attrs: seq<Attr>)
    | Text(text: string)
    | Remark(text: string)

  /** Every suppressed element is closed. */
  predicate WellNested(doc: seq<Node>) {
    doc != [] ==>
      && (match doc[0]
          case Elem(_, _, kids) => WellNested(kids)
          case Single(tag, _) => tag !in SUPPRESS_TAGS
          case _ => true)
      && WellNested(doc[1..])
  }

  function Events(doc: seq<Node>): seq<Event> {
    if doc == [] then []
    else
      (match doc[0]
       case Elem(tag, attrs, kids) => [StartTag(tag, attrs)] + Events(kids) + [EndTag(tag)]
       case Single(tag, attrs) => [StartTag(tag, attrs)]
       case Text(text) => [Data(text)]
       case Remark(text) => [Comment(text)])
      + Events(doc[1..])
  }

  function Shown(attrs: seq<(string, string)>): seq<Attr> {
    seq(|attrs|, i requires 0 <= i < |attrs| => (attrs[i].0, Some(attrs[i].1)))
  }

  /** The safe subset of a document: suppressed elements go with their content,
      unknown elements leave their content, attributes are filtered. */
  function Prune(doc: seq<Node>): seq<Node>
    decreases doc, 0
  {
    if doc == [] then [] else PruneNode(doc[0]) + Prune(doc[1..])
  }

  function PruneNode(node: Node): seq<Node>
    decreases node, 1
  {
    match node
    case Elem(tag, attrs, kids) =>
      if tag in SUPPRESS_TAGS then []
      else if tag in SAFE_TAGS then [Elem(tag, Shown(CleanAttrs(attrs)), Prune(kids))]
      else Prune(kids)
    case Single(tag, attrs) =>
      if tag in SAFE_TAGS then [Single(tag, Shown(CleanAttrs(attrs)))] else []
    case Text(text) => [Text(text)]
    case Remark(_) => []
  }

  function Values(attrs: seq<Attr>): seq<(string, string)> {
    seq(|attrs|, i requires 0 <= i < |attrs| => (attrs[i].0, if attrs[i].1.Some? then attrs[i].1.value else ""))
  }

  /** The tree as HTML text; void elements have no end tag. */
  function Print(doc: seq<Node>): string {
    if doc == [] then ""
    else
      (match doc[0]
       case Elem(tag, attrs, kids) =>
         PrintStart(tag, Values(attrs)) + Print(kids) + if tag in VOID_TAGS then "" else PrintEnd(tag)
       case Single(tag, attrs) => PrintStart(tag, Values(attrs))
       case Text(text) => Escape(text, false)
       case Remark(text) => "<!--" + text + "-->")
      + Print(doc[1..])
  }

  lemma ShownValues(attrs: seq<(string, string)>)
    ensures Values(Shown(attrs)) == attrs
  {
  }

  lemma {:induction false} PrintConcat(a: seq<Node>, b: seq<Node>)
    ensures Print(a + b) == Print(a) + Print(b)
    decreases |a|
  {
    if a == [] {
      assert a + b == b;
    } else {
      PrintConcat(a[1..], b);
      assert a == [a[0]] + a[1..] && a + b == [a[0]] + (a[1..] + b);
      PrintFirst(a[0], a[1..]);
      PrintFirst(a[0], a[1..] + b);
      Regroup(Print([a[0]]), Print(a[1..]), Print(b));
    }
  }

  lemma PrintFirst(node: Node, rest: seq<Node>)
    ensures Print([node] + rest) == Print([node]) + Print(rest)
  {
    assert ([node] + rest)[1..] == rest && [node][1..] == [];
    assert Print([]) == "";
  }

  // ---- The filter against the prune ----

  /** How many suppressed elements are never closed: `<embed>` has no end tag. */
  function Unclosed(doc: seq<Node>): nat
    decreases doc, 0
  {
    if doc == [] then 0 else UnclosedIn(doc[0]) + Unclosed(doc[1..])
  }

  function UnclosedIn(node: Node): nat
    decreases node, 1
  {
    match node
    case Elem(_, _, kids) => Unclosed(kids)
    case Single(tag, _) => if tag in SUPPRESS_TAGS then 1 else 0
    case _ => 0
  }

  /** The part of the pruned document that comes after the first element that is
      suppressed and never closed. */
  function Lost(doc: seq<Node>): string
    decreases doc, 0
  {
    if doc == [] then ""
    else if UnclosedIn(doc[0]) == 0 then Lost(doc[1..])
    else LostIn(doc[0]) + Print(Prune(doc[1..]))
  }

  function LostIn(node: Node): string
    decreases node, 1
  {
    match node
    case Elem(tag, _, kids) => if tag in SUPPRESS_TAGS then "" else Lost(kids) + Emit(0, EndTag(tag))
    case _ => ""
  }

  lemma {:induction false} WellNestedIff(doc: seq<Node>)
    ensures WellNested(doc) <==> Unclosed(doc) == 0
    ensures WellNested(doc) ==> Lost(doc) == ""
    decreases doc
  {
    if doc != [] {
      if doc[0].Elem? {
        WellNestedIff(doc[0].kids);
      }
      WellNestedIff(doc[1..]);
    }
  }

  /** Each suppressed element that is never closed leaves the counter one higher,
      and nothing is printed inside a suppressed element. */
  lemma {:induction false} DepthCounts(depth: nat, doc: seq<Node>)
    ensures FinalDepth(depth, Events(doc)) == depth + Unclosed(doc)
    ensures depth > 0 ==> Output(depth, Events(doc)) == ""
    decreases doc, 0
  {
    if doc != [] {
      var next := depth + UnclosedIn(doc[0]);
      NodeDepth(depth, doc[0]);
      DepthCounts(next, doc[1..]);
      OutputSplit(depth, doc);
      assert FinalDepth(depth, Events(doc)) == next + Unclosed(doc[1..]);
    }
  }

  lemma {:induction false} NodeDepth(depth: nat, node: Node)
    ensures FinalDepth(depth, Events([node])) == depth + UnclosedIn(node)
    ensures depth > 0 ==> Output(depth, Events([node])) == ""
    decreases node, 1
  {
    match node {
      case Elem(tag, attrs, kids) =>
        DepthCounts(NextDepth(depth, StartTag(tag, attrs)), kids);
        ElemOutput(depth, tag, attrs, kids);
      case Single(tag, attrs) =>
        LeafEvents(node);
        OutputOne(depth, StartTag(tag, attrs));
      case Text(text) =>
        LeafEvents(node);
        OutputOne(depth, Data(text));
      case Remark(text) =>
        LeafEvents(node);
        OutputOne(depth, Comment(text));
    }
  }

  /** For every document: the pruned document is printed up to the first suppressed
      element that is never closed, and the rest is lost. */
  lemma {:induction false} FilterLoses(doc: seq<Node>)
    ensures Output(0, Events(doc)) + Lost(doc) == Print(Prune(doc))
    decreases doc, 0
  {
    if doc == [] {
      assert Prune(doc) == [];
    } else {
      NodeLoses(doc[0]);
      if UnclosedIn(doc[0]) == 0 {
        FilterLoses(doc[1..]);
        FirstIsClean(doc);
      } else {
        FirstIsUnclosed(doc);
      }
    }
  }

  lemma FirstIsClean(doc: seq<Node>)
    requires doc != [] && UnclosedIn(doc[0]) == 0
    requires Output(0, Events([doc[0]])) + LostHere(doc[0]) == Print(Prune([doc[0]]))
    requires Output(0, Events(doc[1..])) + Lost(doc[1..]) == Print(Prune(doc[1..]))
    ensures Output(0, Events(doc)) + Lost(doc) == Print(Prune(doc))
  {
    var first, rest := Output(0, Events([doc[0]])), doc[1..];
    NodeDepth(0, doc[0]);
    OutputSplit(0, doc);
    PrintSplit(doc);
    assert first + LostHere(doc[0]) == first;
    Regroup(first, Output(0, Events(rest)), Lost(rest));
  }

  lemma FirstIsUnclosed(doc: seq<Node>)
    requires doc != [] && UnclosedIn(doc[0]) > 0
    requires Output(0, Events([doc[0]])) + LostHere(doc[0]) == Print(Prune([doc[0]]))
    ensures Output(0, Events(doc)) + Lost(doc) == Print(Prune(doc))
  {
    var first, rest := Output(0, Events([doc[0]])), Print(Prune(doc[1..]));
    SilentAfterFirst(doc);
    PrintSplit(doc);
    assert Lost(doc) == LostIn(doc[0]) + rest;
    Regroup(first, LostIn(doc[0]), rest);
  }

  /** Nothing is printed after a first node that leaves an element unclosed. */
  lemma SilentAfterFirst(doc: seq<Node>)
    requires doc != [] && UnclosedIn(doc[0]) > 0
    ensures Output(0, Events(doc)) == Output(0, Events([doc[0]]))
  {
    var first := Output(0, Events([doc[0]]));
    OutputSplit(0, doc);
    assert FinalDepth(0, Events([doc[0]])) == UnclosedIn(doc[0]) by {
      NodeDepth(0, doc[0]);
    }
    assert Output(UnclosedIn(doc[0]), Events(doc[1..])) == "" by {
      DepthCounts(UnclosedIn(doc[0]), doc[1..]);
    }
    assert first + "" == first;
  }

  /** The filter agrees with the prune: it returns to its starting depth exactly on
      well-nested documents, prints the pruned document on all of them, and on the
      others exactly when nothing is lost. */
  lemma FilterIsPrune(depth: nat, doc: seq<Node>)
    ensures FinalDepth(depth, Events(doc)) == depth <==> WellNested(doc)
    ensures depth > 0 ==> Output(depth, Events(doc)) == ""
    ensures WellNested(doc) ==> Output(0, Events(doc)) == Print(Prune(doc))
    ensures Output(0, Events(doc)) == Print(Prune(doc)) <==> Lost(doc) == ""
  {
    DepthCounts(depth, doc);
    FilterLoses(doc);
    WellNestedIff(doc);
    var out := Output(0, Events(doc));
    assert |out + Lost(doc)| == |out| + |Lost(doc)|;
    if Lost(doc) == "" {
      assert out + Lost(doc) == out;
    }
  }

  /** A document silences everything that may follow it exactly when it leaves a
      suppressed element unclosed. */
  lemma UnclosedSilences(a: seq<Node>)
    ensures !WellNested(a) <==> forall b :: Output(0, Events(a + b)) == Output(0, Events(a))
  {
    if WellNested(a) {
      ClosedIsHeard(a);
    } else {
      forall b ensures Output(0, Events(a + b)) == Output(0, Events(a)) {
        UnclosedHides(a, b);
      }
    }
  }

  lemma ClosedIsHeard(a: seq<Node>)
    requires WellNested(a)
    ensures Output(0, Events(a + [Text("x")])) != Output(0, Events(a))
  {
    var out := Output(0, Events(a));
    Follows(a, [Text("x")]);
    assert FinalDepth(0, Events(a)) == 0 by {
      WellNestedIff(a);
      DepthCounts(0, a);
    }
    TextPrints();
    assert |out + "x"| == |out| + 1;
  }

  lemma UnclosedHides(a: seq<Node>, b: seq<Node>)
    requires !WellNested(a)
    ensures Output(0, Events(a + b)) == Output(0, Events(a))
  {
    var out := Output(0, Events(a));
    Follows(a, b);
    assert FinalDepth(0, Events(a)) == Unclosed(a) > 0 by {
      WellNestedIff(a);
      DepthCounts(0, a);
    }
    assert Output(Unclosed(a), Events(b)) == "" by {
      DepthCounts(Unclosed(a), b);
    }
    assert out + "" == out;
  }

  lemma TextPrints()
    ensures Output(0, Events([Text("x")])) == "x"
    ensures Print(Prune([Text("x")])) == "x"
  {
    assert Escape("x", false) == "x" by { assert "x"[1..] == ""; }
    LeafEvents(Text("x"));
    OutputOne(0, Data("x"));
    assert Print([Text("x")]) == Escape("x", false) + Print([]);
  }

  lemma Follows(a: seq<Node>, b: seq<Node>)
    ensures Output(0, Events(a + b)) == Output(0, Events(a)) + Output(FinalDepth(0, Events(a)), Events(b))
  {
    EventsConcat(a, b);
    Concatenate(0, Events(a), Events(b));
  }

  lemma {:induction false} EventsConcat(a: seq<Node>, b: seq<Node>)
    ensures Events(a + b) == Events(a) + Events(b)
    decreases |a|
  {
    if a == [] {
      assert a + b == b;
    } else {
      assert (a + b)[0] == a[0] && (a + b)[1..] == a[1..] + b;
      EventsSplit(a + b);
      EventsSplit(a);
      EventsConcat(a[1..], b);
    }
  }

  /** A page with an `<embed>` loses the text that follows it. */
  lemma EmbedLosesText()
    ensures var doc := [Single("embed", []), Text("x")];
            && !WellNested(doc) && Print(Prune(doc)) == "x" && Output(0, Events(doc)) == "" && Lost(doc) == "x"
  {
    var doc := [Single("embed", []), Text("x")];
    assert doc[1..] == [Text("x")];
    TextPrints();
    PruneSplit(doc);
    LeafEvents(doc[0]);
    assert Prune([doc[0]]) == [];
    assert Lost(doc) == LostIn(doc[0]) + Print(Prune(doc[1..]));
    FilterLoses(doc);
    assert |Output(0, Events(doc)) + Lost(doc)| == |Output(0, Events(doc))| + |Lost(doc)|;
  }

  lemma OutputSplit(depth: nat, doc: seq<Node>)
    requires doc != []
    ensures Output(depth, Events(doc)) ==
            Output(depth, Events([doc[0]])) + Output(FinalDepth(depth, Events([doc[0]])), Events(doc[1..]))
    ensures FinalDepth(depth, Events(doc)) == FinalDepth(FinalDepth(depth, Events([doc[0]])), Events(doc[1..]))
  {
    EventsSplit(doc);
    Concatenate(depth, Events([doc[0]]), Events(doc[1..]));
  }

  lemma PrintSplit(doc: seq<Node>)
    requires doc != []
    ensures Print(Prune(doc)) == Print(Prune([doc[0]])) + Print(Prune(doc[1..]))
  {
    PruneSplit(doc);
    PrintConcat(Prune([doc[0]]), Prune(doc[1..]));
  }

  lemma EventsSplit(doc: seq<Node>)
    requires doc != []
    ensures Events(doc) == Events([doc[0]]) + Events(doc[1..])
  {
    var first := [doc[0]];
    assert first[1..] == [] && Events(first[1..]) == [];
  }

  lemma PruneSplit(doc: seq<Node>)
    requires doc != []
    ensures Prune(doc) == Prune([doc[0]]) + Prune(doc[1..])
  {
    PruneOne(doc[0]);
  }

  lemma PruneOne(node: Node)
    ensures Prune([node]) == PruneNode(node)
  {
    assert [node][1..] == [];
    assert Prune([node]) == PruneNode(node) + [];
  }

  /** What a node leaves unprinted, given that it is reached at depth zero. */
  function LostHere(node: Node): string {
    if UnclosedIn(node) == 0 then "" else LostIn(node)
  }

  lemma {:induction false} NodeLoses(node: Node)
    ensures Output(0, Events([node])) + LostHere(node) == Print(Prune([node]))
    decreases node, 1
  {
    match node {
      case Elem(tag, attrs, kids) =>
        var inner := NextDepth(0, StartTag(tag, attrs));
        DepthCounts(inner, kids);
        ElemOutput(0, tag, attrs, kids);
        ElemPrint(tag, attrs, kids);
        if tag !in SUPPRESS_TAGS {
          WellNestedIff(kids);
          FilterLoses(kids);
          ElemLoses(tag, attrs, kids);
        }
      case Single(tag, attrs) =>
        LeafEvents(node);
        SinglePrint(tag, attrs);
        OutputOne(0, StartTag(tag, attrs));
      case Text(text) =>
        LeafEvents(node);
        OutputOne(0, Data(text));
        assert Print([Text(text)]) == Escape(text, false) + Print([]);
      case Remark(text) =>
        LeafEvents(node);
        OutputOne(0, Comment(text));
    }
  }

  lemma ElemLoses(tag: string, attrs: seq<Attr>, kids: seq<Node>)
    requires tag !in SUPPRESS_TAGS
    requires Unclosed(kids) == 0 ==> Lost(kids) == ""
    requires Output(0, Events(kids)) + Lost(kids) == Print(Prune(kids))
    ensures Emit(0, StartTag(tag, attrs)) + Output(0, Events(kids)) + Emit(Unclosed(kids), EndTag(tag))
            + LostHere(Elem(tag, attrs, kids))
            == Emit(0, StartTag(tag, attrs)) + Print(Prune(kids)) + Emit(0, EndTag(tag))
  {
    var start, out, end := Emit(0, StartTag(tag, attrs)), Output(0, Events(kids)), Emit(0, EndTag(tag));
    if Unclosed(kids) == 0 {
      assert Print(Prune(kids)) == out;
      assert start + out + end + "" == start + out + end;
    } else {
      assert LostHere(Elem(tag, attrs, kids)) == Lost(kids) + end;
      Shuffle(start, out, Lost(kids), end);
    }
  }

  lemma Shuffle(start: string, out: string, lost: string, end: string)
    ensures start + out + "" + (lost + end) == start + (out + lost) + end
  {
  }

  lemma LeafEvents(node: Node)
    requires !node.Elem?
    ensures Events([node]) == match node
                              case Single(tag, attrs) => [StartTag(tag, attrs)]
                              case Text(text) => [Data(text)]
                              case Remark(text) => [Comment(text)]
    ensures node.Text? ==> Prune([node]) == [node]
    ensures node.Remark? ==> Prune([node]) == []
  {
    assert [node][1..] == [];
  }

  lemma ElemOutput(depth: nat, tag: string, attrs: seq<Attr>, kids: seq<Node>)
    ensures var inner := NextDepth(depth, StartTag(tag, attrs));
            var out := FinalDepth(inner, Events(kids));
            && FinalDepth(depth, Events([Elem(tag, attrs, kids)])) == NextDepth(out, EndTag(tag))
            && Output(depth, Events([Elem(tag, attrs, kids)])) ==
               Emit(depth, StartTag(tag, attrs)) + Output(inner, Events(kids)) + Emit(out, EndTag(tag))
  {
    assert [Elem(tag, attrs, kids)][1..] == [];
    assert Events([Elem(tag, attrs, kids)]) == ([StartTag(tag, attrs)] + Events(kids)) + [EndTag(tag)];
    OutputAppend(depth, [StartTag(tag, attrs)] + Events(kids), EndTag(tag));
    Concatenate(depth, [StartTag(tag, attrs)], Events(kids));
    OutputOne(depth, StartTag(tag, attrs));
  }

  lemma SinglePrint(tag: string, attrs: seq<Attr>)
    ensures Print(Prune([Single(tag, attrs)])) == Emit(0, StartTag(tag, attrs))
  {
    assert SAFE_TAGS !! SUPPRESS_TAGS;
    assert [Single(tag, attrs)][1..] == [];
    if tag in SAFE_TAGS {
      var clean := Single(tag, Shown(CleanAttrs(attrs)));
      assert Prune([Single(tag, attrs)]) == [clean];
      assert [clean][1..] == [];
      ShownValues(CleanAttrs(attrs));
      assert Print([clean]) == PrintStart(tag, CleanAttrs(attrs)) + Print([]);
    }
  }

  lemma ElemPrint(tag: string, attrs: seq<Attr>, kids: seq<Node>)
    ensures Print(Prune([Elem(tag, attrs, kids)])) ==
            if tag in SUPPRESS_TAGS then ""
            else Emit(0, StartTag(tag, attrs)) + Print(Prune(kids)) + Emit(0, EndTag(tag))
  {
    assert [Elem(tag, attrs, kids)][1..] == [];
    if tag in SUPPRESS_TAGS {
      assert Prune([Elem(tag, attrs, kids)]) == [];
    } else if tag in SAFE_TAGS {
      var clean := Elem(tag, Shown(CleanAttrs(attrs)), Prune(kids));
      assert Prune([Elem(tag, attrs, kids)]) == [clean];
      assert [clean][1..] == [];
      ShownValues(CleanAttrs(attrs));
    } else {
      assert Prune([Elem(tag, attrs, kids)]) == Prune(kids);
    }
  }
}
