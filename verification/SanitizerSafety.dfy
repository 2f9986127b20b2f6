/** What never leaves the sanitiser: dangerous links, event handlers and the
    suppressed elements, whatever stream of parser events goes in. */
module SanitizerSafety {
  import opened Options
  import opened Sanitizer
  import opened SanitizerRoundTrip

  // ---- What a browser makes of a link ----

  /** Whitespace and control characters, which do not count in a scheme. */
  predicate Skipped(c: char) { c as int <= 32 || 127 <= c as int <= 159 }

  /** ASCII case, and the three letters that a case-insensitive pattern also
      takes for an s or an i. */
  predicate SameLetter(p: char, c: char) {
    || c == p
    || ('A' <= c <= 'Z' && c as int + 32 == p as int)
    || (p == 's' && c == '\U{17F}')
    || (p == 'i' && (c == '\U{130}' || c == '\U{131}'))
  }

  /** The URL spells the lower-case scheme, with skipped characters anywhere. */
  predicate Spells(url: string, scheme: string)
    decreases |url|
  {
    if scheme == "" then true
    else if url == "" then false
    else if Skipped(url[0]) then Spells(url[1..], scheme)
    else SameLetter(scheme[0], url[0]) && Spells(url[1..], scheme[1..])
  }

  predicate Dangerous(url: string) {
    Spells(url, "javascript:") || Spells(url, "vbscript:") || Spells(url, "data:")
  }

  lemma {:induction false} SpellsIffStarts(url: string, scheme: string)
    requires forall i :: 0 <= i < |scheme| ==> scheme[i] == ':' || 'a' <= scheme[i] <= 'z'
    ensures Spells(url, scheme) <==> StartsLike(scheme, Collapse(url))
    decreases |url|
  {
    if scheme != "" && url != "" {
      var n := Collapse(url);
      if Skipped(url[0]) {
        SpellsIffStarts(url[1..], scheme);
      } else {
        SpellsIffStarts(url[1..], scheme[1..]);
        assert n[0] == url[0] && n[1..] == Collapse(url[1..]);
        StartsSplit(scheme, n);
      }
    }
  }

  lemma StartsSplit(pattern: string, s: string)
    requires pattern != "" && s != ""
    ensures StartsLike(pattern, s) <==> CaseMatches(pattern[0], s[0]) && StartsLike(pattern[1..], s[1..])
  {
    if CaseMatches(pattern[0], s[0]) && StartsLike(pattern[1..], s[1..]) {
      forall i | 0 <= i < |pattern| ensures CaseMatches(pattern[i], s[i]) {
        assert i > 0 ==> CaseMatches(pattern[1..][i - 1], s[1..][i - 1]);
      }
    }
  }

  lemma UnsafeIsDangerous(url: string)
    ensures UnsafeScheme(url) <==> Dangerous(url)
  {
    SpellsIffStarts(url, "javascript:");
    SpellsIffStarts(url, "vbscript:");
    SpellsIffStarts(url, "data:");
  }

  /** A link is replaced exactly when it spells a dangerous scheme. */
  lemma LinkReplacedIff(url: string)
    ensures SafeUrl(url) == if Dangerous(url) then "#" else url
    ensures !Dangerous(SafeUrl(url))
  {
    UnsafeIsDangerous(url);
    UnsafeIsDangerous(SafeUrl(url));
    SafeUrlIsSafe(url);
  }

  // ---- Disguises make no difference ----

  lemma {:induction false} InsertedIsSkipped(url: string, i: nat, c: char, scheme: string)
    requires i <= |url| && Skipped(c)
    ensures Spells(url[..i] + [c] + url[i..], scheme) <==> Spells(url, scheme)
    decreases i
  {
    var padded := url[..i] + [c] + url[i..];
    if i == 0 {
      assert padded[1..] == url;
    } else {
      assert padded[0] == url[0] && padded[1..] == url[1..][..i - 1] + [c] + url[1..][i - 1..];
      InsertedIsSkipped(url[1..], i - 1, c, scheme);
      if scheme != "" {
        InsertedIsSkipped(url[1..], i - 1, c, scheme[1..]);
      }
    }
  }

  /** The same ASCII letter in the other case. */
  predicate CaseChange(a: char, b: char) {
    ('a' <= a <= 'z' && b as int + 32 == a as int) || ('a' <= b <= 'z' && a as int + 32 == b as int)
  }

  lemma {:induction false} CaseIsIgnored(url: string, i: nat, c: char, scheme: string)
    requires i < |url| && CaseChange(url[i], c)
    requires forall k :: 0 <= k < |scheme| ==> scheme[k] == ':' || 'a' <= scheme[k] <= 'z'
    ensures Spells(url[i := c], scheme) <==> Spells(url, scheme)
    decreases i
  {
    var changed := url[i := c];
    if i == 0 {
      assert changed[1..] == url[1..];
    } else {
      assert changed[0] == url[0] && changed[1..] == url[1..][i - 1 := c];
      CaseIsIgnored(url[1..], i - 1, c, scheme);
      if scheme != "" {
        CaseIsIgnored(url[1..], i - 1, c, scheme[1..]);
      }
    }
  }

  /** Neither inserting a whitespace or control character anywhere nor changing the
      case of an ASCII letter changes whether a link is replaced. */
  lemma DisguisesAreSeenThrough(url: string, i: nat, c: char)
    requires i <= |url|
    ensures Skipped(c) ==>
              var padded := url[..i] + [c] + url[i..];
              (SafeUrl(padded) != padded <==> SafeUrl(url) != url)
    ensures i < |url| && CaseChange(url[i], c) ==>
              (SafeUrl(url[i := c]) != url[i := c] <==> SafeUrl(url) != url)
  {
    LinkReplacedIff(url);
    if Skipped(c) {
      var padded := url[..i] + [c] + url[i..];
      InsertedIsSkipped(url, i, c, "javascript:");
      InsertedIsSkipped(url, i, c, "vbscript:");
      InsertedIsSkipped(url, i, c, "data:");
      LinkReplacedIff(padded);
    }
    if i < |url| && CaseChange(url[i], c) {
      CaseIsIgnored(url, i, c, "javascript:");
      CaseIsIgnored(url, i, c, "vbscript:");
      CaseIsIgnored(url, i, c, "data:");
      LinkReplacedIff(url[i := c]);
    }
  }

  // ---- Whole outputs ----

  predicate Harmless(e: Event) {
    match e
    case StartTag(tag, attrs) =>
      && tag !in {"script", "style", "noscript", "iframe", "object", "embed"}
      && forall i :: 0 <= i < |attrs| ==>
           && !("on" <= attrs[i].0)
           && (attrs[i].0 in {"href", "src"} ==> attrs[i].1.Some? && !Dangerous(attrs[i].1.value))
    case EndTag(tag) => tag !in {"script", "style", "noscript", "iframe", "object", "embed"}
    case Data(_) => true
    case _ => false
  }

  lemma PieceHarmless(p: Piece)
    requires CleanPiece(p)
    ensures Harmless(EventOf(p))
  {
    if p.Begin? {
      var attrs := Shown(p.attrs);
      forall i | 0 <= i < |attrs|
        ensures !("on" <= attrs[i].0)
        ensures attrs[i].0 in {"href", "src"} ==> attrs[i].1.Some? && !Dangerous(attrs[i].1.value)
      {
        assert CleanAttr(p.attrs[i]);
        SafeAttrsAreNames(p.attrs[i].0);
        UnsafeIsDangerous(p.attrs[i].1);
      }
    }
  }

  lemma {:induction false} MergedHarmless(ps: seq<Piece>)
    requires forall i :: 0 <= i < |ps| ==> CleanPiece(ps[i])
    ensures forall i :: 0 <= i < |Merged(ps)| ==> Harmless(Merged(ps)[i])
    decreases |ps|
  {
    if ps != [] {
      if ps[0].Chars? {
        MergedHarmless(AfterText(ps));
      } else {
        PieceHarmless(ps[0]);
        MergedHarmless(ps[1..]);
      }
    }
  }

  /** For every stream of parser events, what the emitted HTML reads back as has no
      suppressed element, no event handler, no comment or declaration, and no link
      that spells a dangerous scheme. */
  lemma OutputIsHarmless(events: seq<Event>)
    ensures forall i :: 0 <= i < |Read(Output(0, events))| ==> Harmless(Read(Output(0, events))[i])
  {
    SanitizeIsIdempotent(events);
    PiecesClean(0, events);
    MergedHarmless(Pieces(0, events));
  }

  /** The text of a suppressed element is dropped with it. */
  lemma SuppressedTextIsDropped(tag: string, attrs: seq<Attr>, text: string)
    requires tag in {"script", "style", "noscript", "iframe", "object", "embed"}
    ensures Output(0, [StartTag(tag, attrs), Data(text), EndTag(tag)]) == ""
  {
    var events := [StartTag(tag, attrs), Data(text), EndTag(tag)];
    assert events[1..] == [Data(text), EndTag(tag)] && events[1..][1..] == [EndTag(tag)];
    OutputOne(1, EndTag(tag));
  }

  /** The elements and attributes of ordinary chapter text. */
  predicate OrdinaryTag(tag: string) {
    tag in {"p", "div", "h1", "h2", "h3", "h4", "h5", "h6", "ul", "ol", "li", "blockquote", "pre", "code", "hr", "br",
            "em", "strong", "a", "img", "span", "del", "ins", "sub", "sup", "table", "thead", "tbody", "tfoot", "tr",
            "th", "td", "caption", "figure", "figcaption"}
  }

  predicate OrdinaryAttr(name: string) {
    name in {"class", "id", "href", "src", "alt", "title", "target", "rel", "colspan", "rowspan", "align", "valign",
             "width", "height", "start", "type"}
  }

  lemma OrdinaryTagIsSafe(tag: string)
    requires OrdinaryTag(tag)
    ensures tag in SAFE_TAGS && tag !in SUPPRESS_TAGS && (tag in VOID_TAGS <==> tag in {"br", "hr", "img"})
  {
    SafeIsNotSuppressed(tag);
  }

  lemma OrdinaryAttrIsSafe(name: string)
    requires OrdinaryAttr(name)
    ensures name in SAFE_ATTRS && (name in URL_ATTRS <==> name in {"href", "src"})
  {
  }

  lemma OneAttr(raw: string, name: string, value: string)
    requires Lower(raw) == name && name in SAFE_ATTRS && (name in URL_ATTRS ==> SafeUrl(value) == value)
    ensures PrintAttrs(CleanAttrs([(raw, Some(value))])) == " " + name + "=\"" + Escape(value, true) + "\""
  {
    var attrs: seq<Attr> := [(raw, Some(value))];
    SafeAttrsAreNames(name);
    assert attrs[..0] == [] && CleanAttrs(attrs[..0]) == [];
    var kept := [(name, value)];
    assert CleanAttrs(attrs) == [] + kept && [] + kept == kept;
    assert kept[..0] == [] && PrintAttrs(kept[..0]) == "";
    assert PrintAttrs(kept) == "" + PrintAttr(kept[0]) == PrintAttr(kept[0]);
  }

  /** The name with its letters in any case. */
  predicate Spelt(raw: string, name: string) {
    |raw| == |name| && forall i :: 0 <= i < |raw| ==> raw[i] == name[i] || CaseChange(name[i], raw[i])
  }

  lemma SpeltIsLowered(raw: string, name: string)
    requires Name(name) && Spelt(raw, name)
    ensures Lower(raw) == name
  {
  }

  /** Ordinary text is kept: its tags, and its attributes with their values, the
      names of the attributes in lower case. */
  lemma OrdinaryTextIsKept(tag: string, raw: string, name: string, value: string)
    requires OrdinaryTag(tag) && OrdinaryAttr(name) && (name in {"href", "src"} ==> !Dangerous(value))
    requires Spelt(raw, name)
    ensures Output(0, [StartTag(tag, [(raw, Some(value))])]) ==
            "<" + tag + (" " + name + "=\"" + Escape(value, true) + "\"") + ">"
    ensures Output(0, [EndTag(tag)]) == if tag in {"br", "hr", "img"} then "" else "</" + tag + ">"
  {
    OrdinaryTagIsSafe(tag);
    OrdinaryAttrIsSafe(name);
    LinkReplacedIff(value);
    SafeAttrsAreNames(name);
    SpeltIsLowered(raw, name);
    OneAttr(raw, name, value);
    OutputOne(0, StartTag(tag, [(raw, Some(value))]));
    OutputOne(0, EndTag(tag));
  }

  lemma CharIsInert(c: char, quote: bool, bad: char)
    requires bad in {'<', '>'} || (quote && bad in {'"', '\''})
    ensures bad !in EscapeChar(c, quote)
  {
  }

  /** Escaped text holds no character that could begin or end a tag, or, in an
      attribute, the value. */
  lemma {:induction false} EscapedIsInert(text: string, quote: bool, bad: char)
    requires bad in {'<', '>'} || (quote && bad in {'"', '\''})
    ensures bad !in Escape(text, quote)
  {
    if text != "" {
      EscapedIsInert(text[1..], quote, bad);
      CharIsInert(text[0], quote, bad);
    }
  }
}
