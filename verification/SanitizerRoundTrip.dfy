/** Reading the sanitiser's own output back and sanitising again changes nothing. */
module SanitizerRoundTrip {
  import opened Options
  import opened Sanitizer

  // ---- Reading the emitted language ----

  /** The first index of a stop character, or the length. */
  function Find(s: string, stops: set<char>): (n: nat)
    ensures n <= |s|
    ensures forall i :: 0 <= i < n ==> s[i] !in stops
    ensures n < |s| ==> s[n] in stops
  {
    if s == "" || s[0] in stops then 0 else 1 + Find(s[1..], stops)
  }

  /** The inverse of the escaping: the five entities the filter writes. */
  function Unescape(s: string): string
    decreases |s|
  {
    if s == "" then ""
    else if "&amp;" <= s then "&" + Unescape(s[5..])
    else if "&lt;" <= s then "<" + Unescape(s[4..])
    else if "&gt;" <= s then ">" + Unescape(s[4..])
    else if "&quot;" <= s then "\"" + Unescape(s[6..])
    else if "&#x27;" <= s then "'" + Unescape(s[6..])
    else [s[0]] + Unescape(s[1..])
  }

  /** Reads one ` name="value"` group; None when there is none. */
  function ReadOne(s: string): (r: Option<(Attr, string)>)
    requires s != ""
    ensures r.Some? ==> |r.value.1| < |s|
  {
    var eq := Find(s, {'='});
    if s[0] != ' ' || eq + 2 > |s| then None
    else
      var value := s[eq + 2..];
      var end := Find(value, {'"'});
      Some(((s[1..eq], Some(Unescape(value[..end]))), if end < |value| then value[end + 1..] else ""))
  }

  /** Reads the groups up to the closing '>'. */
  function ReadAttrs(s: string): (r: (seq<Attr>, string))
    ensures |r.1| <= |s|
    decreases |s|
  {
    if s == "" then ([], "")
    else if s[0] == '>' then ([], s[1..])
    else if ReadOne(s).None? then ReadAttrs(s[1..])
    else
      var (attr, more) := ReadOne(s).value;
      var rest := ReadAttrs(more);
      ([attr] + rest.0, rest.1)
  }

  function Read(s: string): seq<Event>
    decreases |s|
  {
    if s == "" then []
    else if s[0] != '<' then
      var n := Find(s, {'<'});
      [Data(Unescape(s[..n]))] + Read(s[n..])
    else if "</" <= s then
      var n := Find(s, {'>'});
      [EndTag(s[2..if n < 2 then 2 else n])] + Read(if n < |s| then s[n + 1..] else "")
    else
      var n := Find(s, {' ', '>'});
      var (attrs, rest) := ReadAttrs(s[if n < 1 then 1 else n..]);
      [StartTag(s[1..if n < 1 then 1 else n], attrs)] + Read(rest)
  }

  // ---- What the filter emits, piece by piece ----

  datatype Piece =
    | Begin(tag: string, attrs: seq<(string, string)>)
    | Close(tag: string)
    | Chars(text: string)

  function PrintPiece(p: Piece): string {
    match p
    case Begin(tag, attrs) => PrintStart(tag, attrs)
    case Close(tag) => PrintEnd(tag)
    case Chars(text) => Escape(text, false)
  }

  function PrintPieces(ps: seq<Piece>): string {
    if ps == [] then "" else PrintPiece(ps[0]) + PrintPieces(ps[1..])
  }

  function Kept(depth: nat, e: Event): seq<Piece> {
    match e
    case StartTag(tag, attrs) =>
      if tag in SUPPRESS_TAGS || depth > 0 || tag !in SAFE_TAGS then [] else [Begin(tag, CleanAttrs(attrs))]
    case EndTag(tag) =>
      if tag in SUPPRESS_TAGS || depth > 0 || tag !in SAFE_TAGS || tag in VOID_TAGS then [] else [Close(tag)]
    case Data(text) => if depth == 0 then [Chars(text)] else []
    case _ => []
  }

  function Pieces(depth: nat, events: seq<Event>): seq<Piece>
    decreases |events|
  {
    if events == [] then [] else Kept(depth, events[0]) + Pieces(NextDepth(depth, events[0]), events[1..])
  }

  lemma {:induction false} OutputIsPieces(depth: nat, events: seq<Event>)
    ensures Output(depth, events) == PrintPieces(Pieces(depth, events))
    decreases |events|
  {
    if events != [] {
      var rest := Pieces(NextDepth(depth, events[0]), events[1..]);
      OutputIsPieces(NextDepth(depth, events[0]), events[1..]);
      var k := Kept(depth, events[0]);
      if k != [] {
        assert (k + rest)[0] == k[0] && (k + rest)[1..] == rest;
      } else {
        assert k + rest == rest;
      }
    }
  }

  // ---- Names ----

  predicate NameChar(c: char) {
    'a' <= c <= 'z' || '0' <= c <= '9'
  }

  predicate Name(s: string) {
    s != "" && forall i :: 0 <= i < |s| ==> NameChar(s[i])
  }

  lemma SafeTagsAreNames(t: string)
    requires t in SAFE_TAGS
    ensures Name(t)
  {
  }

  lemma SafeAttrsAreNames(n: string)
    requires n in SAFE_ATTRS
    ensures Name(n) && KeptAttr(n)
  {
    assert n[0] != 'o' && "on"[0] == 'o';
  }

  predicate CleanAttr(a: (string, string)) {
    a.0 in SAFE_ATTRS && (a.0 in URL_ATTRS ==> !UnsafeScheme(a.1))
  }

  predicate CleanPiece(p: Piece) {
    match p
    case Begin(tag, attrs) => tag in SAFE_TAGS && forall i :: 0 <= i < |attrs| ==> CleanAttr(attrs[i])
    case Close(tag) => tag in SAFE_TAGS && tag !in VOID_TAGS
    case Chars(_) => true
  }

  lemma {:induction false} CleanAttrsClean(attrs: seq<Attr>)
    ensures forall i :: 0 <= i < |CleanAttrs(attrs)| ==> CleanAttr(CleanAttrs(attrs)[i])
  {
    if attrs != [] {
      CleanAttrsClean(attrs[..|attrs| - 1]);
      var (raw, value) := attrs[|attrs| - 1];
      SafeUrlIsSafe(if value.None? then "" else value.value);
    }
  }

  lemma {:induction false} PiecesClean(depth: nat, events: seq<Event>)
    ensures forall i :: 0 <= i < |Pieces(depth, events)| ==> CleanPiece(Pieces(depth, events)[i])
    decreases |events|
  {
    if events != [] {
      PiecesClean(NextDepth(depth, events[0]), events[1..]);
      if events[0].StartTag? {
        CleanAttrsClean(events[0].attrs);
      }
    }
  }

  // ---- Unescaping undoes escaping ----

  lemma UnescapeAmp(rest: string)
    ensures Unescape("&amp;" + rest) == "&" + Unescape(rest)
  {
    assert ("&amp;" + rest)[5..] == rest;
  }

  lemma UnescapeLt(rest: string)
    ensures Unescape("&lt;" + rest) == "<" + Unescape(rest)
  {
    var s := "&lt;" + rest;
    assert s[1] == 'l' && s[4..] == rest;
  }

  lemma UnescapeGt(rest: string)
    ensures Unescape("&gt;" + rest) == ">" + Unescape(rest)
  {
    var s := "&gt;" + rest;
    assert s[1] == 'g' && s[4..] == rest;
  }

  lemma UnescapeQuot(rest: string)
    ensures Unescape("&quot;" + rest) == "\"" + Unescape(rest)
  {
    var s := "&quot;" + rest;
    assert s[1] == 'q' && s[6..] == rest;
  }

  lemma UnescapeApostrophe(rest: string)
    ensures Unescape("&#x27;" + rest) == "'" + Unescape(rest)
  {
    var s := "&#x27;" + rest;
    assert s[1] == '#' && s[6..] == rest;
  }

  lemma UnescapePlain(c: char, rest: string)
    requires c != '&'
    ensures Unescape([c] + rest) == [c] + Unescape(rest)
  {
    var s := [c] + rest;
    assert s[0] != '&' && s[1..] == rest;
  }

  lemma UnescapeStep(c: char, quote: bool, rest: string)
    ensures Unescape(EscapeChar(c, quote) + rest) == [c] + Unescape(rest)
  {
    if c == '&' {
      UnescapeAmp(rest);
    } else if c == '<' {
      UnescapeLt(rest);
    } else if c == '>' {
      UnescapeGt(rest);
    } else if quote && c == '"' {
      UnescapeQuot(rest);
    } else if quote && c == '\'' {
      UnescapeApostrophe(rest);
    } else {
      UnescapePlain(c, rest);
    }
  }

  lemma {:induction false} UnescapeEscape(s: string, quote: bool)
    ensures Unescape(Escape(s, quote)) == s
  {
    if s != "" {
      UnescapeStep(s[0], quote, Escape(s[1..], quote));
      UnescapeEscape(s[1..], quote);
    }
  }

  lemma EscapeCharHides(c: char, quote: bool)
    ensures '<' !in EscapeChar(c, quote) && '>' !in EscapeChar(c, quote)
    ensures quote ==> '"' !in EscapeChar(c, quote)
  {
  }

  lemma {:induction false} EscapeHides(s: string, quote: bool)
    ensures '<' !in Escape(s, quote) && '>' !in Escape(s, quote)
    ensures quote ==> '"' !in Escape(s, quote)
  {
    if s != "" {
      EscapeHides(s[1..], quote);
      EscapeCharHides(s[0], quote);
    }
  }

  lemma {:induction false} EscapeConcat(a: string, b: string, quote: bool)
    ensures Escape(a + b, quote) == Escape(a, quote) + Escape(b, quote)
  {
    if a == "" {
      assert a + b == b;
    } else {
      assert (a + b)[1..] == a[1..] + b;
      EscapeConcat(a[1..], b, quote);
    }
  }

  lemma {:induction false} FindAt(a: string, b: string, stops: set<char>)
    requires forall i :: 0 <= i < |a| ==> a[i] !in stops
    requires b == "" || b[0] in stops
    ensures Find(a + b, stops) == |a|
  {
    if a == "" {
      assert a + b == b;
    } else {
      assert (a + b)[1..] == a[1..] + b;
      FindAt(a[1..], b, stops);
    }
  }

  // ---- Attributes read back ----

  lemma {:induction false} PrintAttrsFirst(a: (string, string), rest: seq<(string, string)>)
    ensures PrintAttrs([a] + rest) == PrintAttr(a) + PrintAttrs(rest)
  {
    if rest == [] {
      assert [a] + rest == [] + [a];
      PrintAttrsAppend([], a);
    } else {
      var n := |rest| - 1;
      var init, last := rest[..n], rest[n];
      PrintAttrsFirst(a, init);
      assert rest == init + [last] && [a] + rest == ([a] + init) + [last];
      PrintAttrsAppend([a] + init, last);
      PrintAttrsAppend(init, last);
      Assoc(PrintAttr(a), PrintAttrs(init), PrintAttr(last));
    }
  }

  lemma Assoc(a: string, b: string, c: string)
    ensures (a + b) + c == a + (b + c)
  {
  }

  lemma ReadGroup(name: string, v: string, more: string)
    requires Name(name) && '"' !in v
    ensures ReadOne((" " + name) + ("=\"" + (v + ("\"" + more)))) == Some(((name, Some(Unescape(v))), more))
  {
    var value := v + ("\"" + more);
    ReadName(name, value);
    FindAt(v, "\"" + more, {'"'});
    assert value[..|v|] == v && value[|v| + 1..] == more;
  }

  lemma ReadName(name: string, value: string)
    requires Name(name)
    ensures var s := (" " + name) + ("=\"" + value);
            && s[0] == ' ' && Find(s, {'='}) == 1 + |name|
            && s[1..1 + |name|] == name && s[3 + |name|..] == value
  {
    FindAt(" " + name, "=\"" + value, {'='});
  }

  lemma AttrText(name: string, v: string, more: string)
    ensures (((name + "=\"") + v) + "\"") + more == name + ("=\"" + (v + ("\"" + more)))
  {
  }

  lemma ReadOneAttr(a: (string, string), more: string)
    requires CleanAttr(a)
    ensures ReadOne(PrintAttr(a) + more) == Some(((a.0, Some(a.1)), more))
  {
    SafeAttrsAreNames(a.0);
    EscapeHides(a.1, true);
    ReadGroup(a.0, Escape(a.1, true), more);
    UnescapeEscape(a.1, true);
    AttrText(" " + a.0, Escape(a.1, true), more);
  }

  lemma PrintAttrsSplit(attrs: seq<(string, string)>, rest: string)
    requires attrs != []
    ensures PrintAttrs(attrs) + ">" + rest == PrintAttr(attrs[0]) + (PrintAttrs(attrs[1..]) + ">" + rest)
  {
    var first, others := PrintAttr(attrs[0]), PrintAttrs(attrs[1..]);
    assert attrs == [attrs[0]] + attrs[1..];
    PrintAttrsFirst(attrs[0], attrs[1..]);
    Assoc(first, others, ">");
    Assoc(first, others + ">", rest);
  }

  lemma {:induction false} ReadAllAttrs(attrs: seq<(string, string)>, rest: string)
    requires forall i :: 0 <= i < |attrs| ==> CleanAttr(attrs[i])
    ensures ReadAttrs(PrintAttrs(attrs) + ">" + rest) == (Shown(attrs), rest)
  {
    if attrs == [] {
      assert PrintAttrs(attrs) + ">" + rest == ">" + rest;
      ReadNone(rest);
      assert Shown(attrs) == [];
    } else {
      PrintAttrsSplit(attrs, rest);
      ReadAllAttrs(attrs[1..], rest);
      ReadNext(attrs[0], PrintAttrs(attrs[1..]) + ">" + rest, Shown(attrs[1..]), rest);
      ShownFirst(attrs);
    }
  }

  lemma ShownFirst(attrs: seq<(string, string)>)
    requires attrs != []
    ensures Shown(attrs) == [(attrs[0].0, Some(attrs[0].1))] + Shown(attrs[1..])
  {
  }

  lemma ReadNone(rest: string)
    ensures ReadAttrs(">" + rest) == ([], rest)
  {
    assert (">" + rest)[1..] == rest;
  }

  lemma ReadNext(a: (string, string), more: string, others: seq<Attr>, rest: string)
    requires CleanAttr(a) && ReadAttrs(more) == (others, rest)
    ensures ReadAttrs(PrintAttr(a) + more) == ([(a.0, Some(a.1))] + others, rest)
  {
    ReadOneAttr(a, more);
    assert PrintAttr(a)[0] == ' ';
  }

  lemma LowerName(n: string)
    requires Name(n)
    ensures Lower(n) == n
  {
  }

  /** Attributes that were filtered once pass the filter unchanged. */
  lemma {:induction false} CleanTwice(attrs: seq<(string, string)>)
    requires forall i :: 0 <= i < |attrs| ==> CleanAttr(attrs[i])
    ensures CleanAttrs(Shown(attrs)) == attrs
  {
    if attrs != [] {
      var n := |attrs| - 1;
      CleanTwice(attrs[..n]);
      assert Shown(attrs)[..n] == Shown(attrs[..n]);
      SafeAttrsAreNames(attrs[n].0);
      LowerName(attrs[n].0);
      assert CleanValue(attrs[n].0, Some(attrs[n].1)) == attrs[n].1;
      assert attrs == attrs[..n] + [attrs[n]];
    }
  }

  // ---- Whole output ----

  /** The text before the first tag; adjacent texts print as one. */
  function LeadText(ps: seq<Piece>): string {
    if ps == [] || !ps[0].Chars? then "" else ps[0].text + LeadText(ps[1..])
  }

  function AfterText(ps: seq<Piece>): (r: seq<Piece>)
    ensures |r| <= |ps| && (r != [] ==> !r[0].Chars?)
    ensures forall i :: 0 <= i < |r| ==> r[i] in ps
    ensures ps != [] && ps[0].Chars? ==> |r| < |ps|
  {
    if ps == [] || !ps[0].Chars? then ps else AfterText(ps[1..])
  }

  lemma {:induction false} LeadPrints(ps: seq<Piece>)
    ensures PrintPieces(ps) == Escape(LeadText(ps), false) + PrintPieces(AfterText(ps))
  {
    if ps != [] && ps[0].Chars? {
      LeadPrints(ps[1..]);
      EscapeConcat(ps[0].text, LeadText(ps[1..]), false);
      Assoc(Escape(ps[0].text, false), Escape(LeadText(ps[1..]), false), PrintPieces(AfterText(ps)));
    }
  }

  lemma ReadText(text: string, more: string)
    requires text != "" && (more == "" || more[0] == '<')
    ensures Read(Escape(text, false) + more) == [Data(text)] + Read(more)
  {
    var t := Escape(text, false);
    EscapeHides(text, false);
    FindAt(t, more, {'<'});
    UnescapeEscape(text, false);
    assert t != "";
    assert (t + more)[..|t|] == t && (t + more)[|t|..] == more;
  }

  lemma ReadClose(tag: string, more: string)
    requires Name(tag)
    ensures Read(PrintEnd(tag) + more) == [EndTag(tag)] + Read(more)
  {
    var s := PrintEnd(tag) + more;
    assert s == ("</" + tag) + (">" + more);
    FindAt("</" + tag, ">" + more, {'>'});
    var n := 2 + |tag|;
    assert "</" <= s && s[0] == '<';
    assert s[2..n] == tag && s[n + 1..] == more;
  }

  lemma ReadBegin(tag: string, attrs: seq<(string, string)>, more: string)
    requires Name(tag) && forall i :: 0 <= i < |attrs| ==> CleanAttr(attrs[i])
    ensures Read(PrintStart(tag, attrs) + more) == [StartTag(tag, Shown(attrs))] + Read(more)
  {
    var s := PrintStart(tag, attrs) + more;
    var tail := PrintAttrs(attrs) + ">" + more;
    assert s == ("<" + tag) + tail;
    AttrsStart(attrs, more);
    FindAt("<" + tag, tail, {' ', '>'});
    var n := 1 + |tag|;
    assert s[0] == '<' && s[1] == tag[0] && s[1] != '/';
    assert s[1..n] == tag && s[n..] == tail;
    ReadAllAttrs(attrs, more);
  }

  lemma AttrsStart(attrs: seq<(string, string)>, more: string)
    ensures var tail := PrintAttrs(attrs) + ">" + more; tail != "" && (tail[0] == ' ' || tail[0] == '>')
  {
    if attrs != [] {
      assert attrs == [attrs[0]] + attrs[1..];
      PrintAttrsFirst(attrs[0], attrs[1..]);
      assert PrintAttr(attrs[0])[0] == ' ';
    }
  }

  lemma OutputCons(e: Event, rest: seq<Event>)
    requires NextDepth(0, e) == 0
    ensures Output(0, [e] + rest) == Emit(0, e) + Output(0, rest)
  {
    assert ([e] + rest)[1..] == rest;
  }

  function EventOf(p: Piece): Event {
    match p
    case Begin(tag, attrs) => StartTag(tag, Shown(attrs))
    case Close(tag) => EndTag(tag)
    case Chars(text) => Data(text)
  }

  /** The events of the pieces, with adjacent texts merged and empty ones gone. */
  function Merged(ps: seq<Piece>): seq<Event>
    decreases |ps|
  {
    if ps == [] then []
    else if !ps[0].Chars? then [EventOf(ps[0])] + Merged(ps[1..])
    else if LeadText(ps) == "" then Merged(AfterText(ps))
    else [Data(LeadText(ps))] + Merged(AfterText(ps))
  }

  /** Reading the printed pieces gives back exactly their tags, attributes and texts. */
  lemma {:induction false} ReadPieces(ps: seq<Piece>)
    requires forall i :: 0 <= i < |ps| ==> CleanPiece(ps[i])
    ensures Read(PrintPieces(ps)) == Merged(ps)
    decreases |ps|
  {
    if ps != [] {
      match ps[0] {
        case Chars(_) =>
          var text, after := LeadText(ps), AfterText(ps);
          ReadPieces(after);
          LeadPrints(ps);
          TagFirst(after);
          if text == "" {
            assert PrintPieces(ps) == PrintPieces(after);
          } else {
            ReadText(text, PrintPieces(after));
          }
        case Close(tag) =>
          SafeTagsAreNames(tag);
          ReadClose(tag, PrintPieces(ps[1..]));
          ReadPieces(ps[1..]);
        case Begin(tag, attrs) =>
          SafeTagsAreNames(tag);
          ReadBegin(tag, attrs, PrintPieces(ps[1..]));
          ReadPieces(ps[1..]);
      }
    }
  }

  lemma TagFirst(ps: seq<Piece>)
    requires ps != [] ==> !ps[0].Chars?
    ensures PrintPieces(ps) == "" || PrintPieces(ps)[0] == '<'
  {
  }

  lemma EmitPiece(p: Piece)
    requires CleanPiece(p)
    ensures Emit(0, EventOf(p)) == PrintPiece(p) && NextDepth(0, EventOf(p)) == 0
  {
    match p {
      case Begin(tag, attrs) =>
        SafeIsNotSuppressed(tag);
        CleanTwice(attrs);
      case Close(tag) => SafeIsNotSuppressed(tag);
      case Chars(_) =>
    }
  }

  lemma SafeIsNotSuppressed(tag: string)
    requires tag in SAFE_TAGS
    ensures tag !in SUPPRESS_TAGS
  {
  }

  /** Sanitising those events prints the pieces again. */
  lemma {:induction false} MergedPrints(ps: seq<Piece>)
    requires forall i :: 0 <= i < |ps| ==> CleanPiece(ps[i])
    ensures Output(0, Merged(ps)) == PrintPieces(ps)
    decreases |ps|
  {
    if ps != [] {
      if ps[0].Chars? {
        MergedPrints(AfterText(ps));
        TextPrintsMerged(ps);
      } else {
        MergedPrints(ps[1..]);
        EmitPiece(ps[0]);
        OutputCons(EventOf(ps[0]), Merged(ps[1..]));
      }
    }
  }

  lemma TextPrintsMerged(ps: seq<Piece>)
    requires ps != [] && ps[0].Chars?
    requires Output(0, Merged(AfterText(ps))) == PrintPieces(AfterText(ps))
    ensures Output(0, Merged(ps)) == PrintPieces(ps)
  {
    LeadPrints(ps);
    if LeadText(ps) == "" {
      assert PrintPieces(ps) == PrintPieces(AfterText(ps));
    } else {
      OutputCons(Data(LeadText(ps)), Merged(AfterText(ps)));
    }
  }

  /** For every document, well nested or not: sanitised HTML reads back as the kept
      pieces, and sanitising what was read gives the same text. */
  lemma SanitizeIsIdempotent(events: seq<Event>)
    ensures Read(Output(0, events)) == Merged(Pieces(0, events))
    ensures Output(0, Read(Output(0, events))) == Output(0, events)
  {
    OutputIsPieces(0, events);
    PiecesClean(0, events);
    ReadPieces(Pieces(0, events));
    MergedPrints(Pieces(0, events));
  }
}
