/** The HTML builder of the toolkit: attribute and tag serialisation and the
    element helpers built on them. Nothing is escaped: names, values and content
    are copied into the markup as they are. */
module Html {
  import opened Php

  /** An attribute list: a PHP array from attribute name to value, in order. */
  type Attrs = seq<(string, Value)>

  /** The values `attr` keeps: every PHP-non-empty value, and the string '0'. */
  predicate Kept(v: Value) {
    !IsEmpty(v) || v == Str("0")
  }

  /** `name="text"`, the form of one rendered attribute. */
  function Quoted(name: string, text: string): string {
    name + "=\"" + text + "\""
  }

  /** `attr($name, $value)` for one attribute; None stands for PHP `false`. */
  function Attr(name: string, value: Value): (r: Option<string>)
    ensures r.Some? <==> Kept(value)
    ensures value.Str? ==> (r.Some? <==> value.s != "")
    ensures value.Null? || value == Bool(false) || value == Int(0) || value == Arr(0) ==> r.None?
    ensures r.Some? ==> r.value == Quoted(name, ToStr(value))
  {
    if IsEmpty(value) && value != Str("0") then None
    else Some(Quoted(name, ToStr(value)))
  }

  /** The pieces the `foreach` of `attr($array)` collects: one rendered
      attribute per pair whose value is kept, in the order of the pairs. */
  function Rendered(attrs: Attrs): (parts: seq<string>)
    decreases |attrs|
  {
    if |attrs| == 0 then []
    else Piece(attrs[0].0, attrs[0].1) + Rendered(attrs[1..])
  }

  /** What one pair contributes: `if($a) $attributes[] = $a;`. */
  function Piece(name: string, value: Value): (p: seq<string>)
    ensures |p| <= 1
    ensures p == [] <==> !Kept(value)
    ensures p != [] ==> p[0] == Attr(name, value).value
  {
    var a := Attr(name, value);
    if a.Some? && !EmptyString(a.value) then [a.value] else []
  }

  /** Every rendered piece is at least `k=""` long. */
  lemma {:induction false} RenderedLength(attrs: Attrs)
    ensures |Rendered(attrs)| <= |attrs|
    ensures forall k :: 0 <= k < |Rendered(attrs)| ==> |Rendered(attrs)[k]| >= 3
    decreases |attrs|
  {
    if |attrs| > 0 {
      RenderedLength(attrs[1..]);
    }
  }

  lemma {:induction false} RenderedAppend(a: Attrs, b: Attrs)
    ensures Rendered(a + b) == Rendered(a) + Rendered(b)
    decreases |a|
  {
    if |a| == 0 {
      assert a + b == b;
    } else {
      assert (a + b)[0] == a[0] && (a + b)[1..] == a[1..] + b;
      RenderedAppend(a[1..], b);
    }
  }

  /** Nothing is rendered exactly when no value is kept. */
  lemma {:induction false} RenderedNone(attrs: Attrs)
    ensures Rendered(attrs) == [] <==> forall i :: 0 <= i < |attrs| ==> !Kept(attrs[i].1)
    decreases |attrs|
  {
    if |attrs| > 0 {
      RenderedNone(attrs[1..]);
      assert forall i :: 1 <= i < |attrs| ==> attrs[i] == attrs[1..][i - 1];
    }
  }

  /** When every value is kept, piece `i` is pair `i` rendered: nothing is
      dropped, nothing reordered. */
  lemma {:induction false} RenderedAllKept(attrs: Attrs)
    requires forall i :: 0 <= i < |attrs| ==> Kept(attrs[i].1)
    ensures |Rendered(attrs)| == |attrs|
    ensures forall i :: 0 <= i < |attrs| ==> Rendered(attrs)[i] == Attr(attrs[i].0, attrs[i].1).value
    decreases |attrs|
  {
    if |attrs| > 0 {
      var tail := attrs[1..];
      assert forall i :: 0 <= i < |tail| ==> tail[i] == attrs[i + 1];
      RenderedAllKept(tail);
      var p := Piece(attrs[0].0, attrs[0].1);
      var r := Rendered(attrs);
      var t := Rendered(tail);
      assert r == p + t;
      assert |p| == 1;
      forall i | 0 <= i < |attrs|
        ensures r[i] == Attr(attrs[i].0, attrs[i].1).value
      {
        if i == 0 {
          assert r[0] == p[0];
        } else {
          assert r[i] == t[i - 1] && attrs[i] == tail[i - 1];
        }
      }
    }
  }


  /** A pair whose value is not kept renders as if it were not in the list. */
  lemma DroppedPair(a: Attrs, name: string, value: Value, b: Attrs)
    requires !Kept(value)
    ensures Rendered(a + [(name, value)] + b) == Rendered(a + b)
  {
    var x := [(name, value)];
    assert Rendered(x) == [] by {
      assert x[1..] == [];
    }
    RenderedAppend(a + x, b);
    RenderedAppend(a, x);
    RenderedAppend(a, b);
    assert Rendered(a + x) == Rendered(a);
  }

  /** `attr($array)`: the kept attributes joined by single spaces. */
  function Attributes(attrs: Attrs): (s: string)
    ensures s == "" <==> forall i :: 0 <= i < |attrs| ==> !Kept(attrs[i].1)
    ensures s != "0"
  {
    RenderedNone(attrs);
    RenderedLength(attrs);
    JoinLength(" ", Rendered(attrs), 3);
    Join(" ", Rendered(attrs))
  }

  /** The `foreach` loop of `attr($array)`, pushing each kept piece in turn and
      imploding at the end. */
  method RenderAttributes(attrs: Attrs) returns (s: string)
    ensures s == Attributes(attrs)
  {
    var attributes: seq<string> := [];
    var i := 0;
    while i < |attrs|
      invariant 0 <= i <= |attrs|
      invariant attributes == Rendered(attrs[..i])
    {
      var a := Attr(attrs[i].0, attrs[i].1);
      ghost var before := attributes;
      if a.Some? && !EmptyString(a.value) {
        attributes := attributes + [a.value];
      }
      assert attributes == before + Piece(attrs[i].0, attrs[i].1);
      RenderedOne(attrs[i].0, attrs[i].1);
      RenderedAppend(attrs[..i], [attrs[i]]);
      assert attrs[..i + 1] == attrs[..i] + [attrs[i]];
      i := i + 1;
    }
    assert attrs[..i] == attrs;
    s := Join(" ", attributes);
  }

  lemma RenderedOne(name: string, value: Value)
    ensures Rendered([(name, value)]) == Piece(name, value)
  {
    assert [(name, value)][1..] == [];
  }


  /** A list starting with a kept pair renders that pair first. */
  lemma AttributesFirst(name: string, value: Value, rest: Attrs)
    requires Kept(value)
    ensures Attributes([(name, value)] + rest) ==
      Quoted(name, ToStr(value)) + (if Attributes(rest) == "" then "" else " " + Attributes(rest))
  {
    var attrs := [(name, value)] + rest;
    assert attrs[0] == (name, value) && attrs[1..] == rest;
    var p := Attr(name, value).value;
    assert Rendered(attrs) == [p] + Rendered(rest);
    RenderedNone(rest);
    if Rendered(rest) != [] {
      assert ([p] + Rendered(rest))[1..] == Rendered(rest);
    }
  }

  /** A list starting with a dropped pair renders as its tail. */
  lemma AttributesSkip(name: string, value: Value, rest: Attrs)
    requires !Kept(value)
    ensures Attributes([(name, value)] + rest) == Attributes(rest)
  {
    var attrs := [(name, value)] + rest;
    assert attrs[0] == (name, value) && attrs[1..] == rest;
    assert Piece(name, value) == [];
    assert Rendered(attrs) == [] + Rendered(rest) == Rendered(rest);
  }

  /** A one-pair list renders that pair alone, or nothing. */
  lemma Single(name: string, value: Value)
    ensures Attributes([(name, value)]) == if Kept(value) then Quoted(name, ToStr(value)) else ""
  {
    assert [(name, value)] == [(name, value)] + [];
    if Kept(value) {
      AttributesFirst(name, value, []);
    } else {
      AttributesSkip(name, value, []);
    }
  }

  /** `tag($name, $content, $attr)`; content `Null` makes a self-closing tag. */
  function Tag(name: string, content: Value, attrs: Attrs): string {
    Opening(name, Attributes(attrs)) + Closing(name, content)
  }

  /** The name and, unless they render empty, the attributes `a`. */
  function Opening(name: string, a: string): string {
    "<" + name + (if !EmptyString(a) then " " + a else "")
  }

  /** The content and the closing tag, or " />" for null content. */
  function Closing(name: string, content: Value): string {
    if !content.Null? then ">" + ToStr(content) + "</" + name + ">" else " />"
  }

  /** `tag()` as written: `$html` built by successive appends. */
  method BuildTag(name: string, content: Value, attrs: Attrs) returns (html: string)
    ensures html == Tag(name, content, attrs)
  {
    html := "<" + name;
    var a := RenderAttributes(attrs);
    if !EmptyString(a) {
      html := html + (" " + a);
    }
    assert html == Opening(name, a);
    if !content.Null? {
      html := html + (">" + ToStr(content) + "</" + name + ">");
    } else {
      html := html + " />";
    }
  }


  /** No '<' in the tag name, in any attribute name, or in any attribute value. */
  predicate NoOpeningBracket(name: string, attrs: Attrs) {
    '<' !in name && forall i :: 0 <= i < |attrs| ==> '<' !in attrs[i].0 && '<' !in ToStr(attrs[i].1)
  }

  lemma {:induction false} RenderedExcludes(attrs: Attrs, c: char)
    requires c != '=' && c != '"'
    requires forall i :: 0 <= i < |attrs| ==> c !in attrs[i].0 && c !in ToStr(attrs[i].1)
    ensures forall k :: 0 <= k < |Rendered(attrs)| ==> c !in Rendered(attrs)[k]
    decreases |attrs|
  {
    if |attrs| > 0 {
      assert forall i :: 1 <= i < |attrs| ==> attrs[i] == attrs[1..][i - 1];
      RenderedExcludes(attrs[1..], c);
    }
  }

  /** `html` begins with the opening of a `name` tag. */
  predicate Opens(html: string, name: string) {
    "<" + name <= html
  }

  /** A tag with null content starts with its name, ends in " />", and, unless
      a name or value itself brings one, holds no '<' after the first character
      and so no closing tag. */
  lemma SelfClosingTag(name: string, attrs: Attrs)
    ensures Opens(Tag(name, Null, attrs), name)
    ensures EndsWith(Tag(name, Null, attrs), " />")
    ensures NoOpeningBracket(name, attrs) ==> '<' !in Tag(name, Null, attrs)[1..]
  {
    TagEnds(name, Null, attrs);
    var a := Attributes(attrs);
    var sep := if !EmptyString(a) then " " + a else "";
    var html := Tag(name, Null, attrs);
    assert html == "<" + name + sep + " />";
    Assoc("<" + name, sep, " />");
    Assoc("<", name, sep + " />");
    DropHead("<", name + (sep + " />"));
    if NoOpeningBracket(name, attrs) {
      RenderedExcludes(attrs, '<');
      JoinExcludes(" ", Rendered(attrs), '<');
      assert '<' !in sep;
    }
  }


  /** A tag with non-null content, even '', starts with its name and ends with
      the content followed by the closing tag. */
  lemma ClosedTag(name: string, content: Value, attrs: Attrs)
    requires !content.Null?
    ensures Opens(Tag(name, content, attrs), name)
    ensures EndsWith(Tag(name, content, attrs), ">" + ToStr(content) + "</" + name + ">")
  {
    var a := Attributes(attrs);
    assert Tag(name, content, attrs) == Opening(name, a) + (">" + ToStr(content) + "</" + name + ">");
  }

  /** Every tag opens with its name and ends with its closing part. */
  lemma TagEnds(name: string, content: Value, attrs: Attrs)
    ensures Opens(Tag(name, content, attrs), name)
    ensures EndsWith(Tag(name, content, attrs), Closing(name, content))
  {
    var a := Attributes(attrs);
    var sep := if !EmptyString(a) then " " + a else "";
    var c := Closing(name, content);
    assert Tag(name, content, attrs) == "<" + name + sep + c;
    Assoc("<" + name, sep, c);
    PrefixOfAppend("<" + name, sep + c);
    EndsWithAppend("<" + name + sep, c);
  }


  /** When no attribute survives, nothing stands between the name and the rest
      of the tag. */
  lemma BareTag(name: string, content: Value, attrs: Attrs)
    requires forall i :: 0 <= i < |attrs| ==> !Kept(attrs[i].1)
    ensures Tag(name, content, attrs) ==
      "<" + name + (if content.Null? then " />" else ">" + ToStr(content) + "</" + name + ">")
  {
  }

  /** A kept first attribute directly follows the tag name and one space. */
  lemma FirstAttributeTag(name: string, content: Value, key: string, value: Value, rest: Attrs)
    requires Kept(value)
    ensures Opens(Tag(name, content, [(key, value)] + rest), name + " " + Quoted(key, ToStr(value)))
  {
    AttributesFirst(key, value, rest);
    var a := Attributes([(key, value)] + rest);
    var p := Quoted(key, ToStr(value));
    assert p <= a;
    assert "<" + (name + " " + p) <= "<" + (name + " " + a);
    assert Opening(name, a) == "<" + (name + " " + a);
  }

  /** Merging caller attributes over one default pair keeps that key first,
      with the caller's value when the caller gives one. */
  lemma MergeOverOne(key: string, default: Value, attrs: Attrs)
    ensures Merge([(key, default)], attrs) ==
      [(key, Lookup(attrs, key).GetOr(default))] + Absent(attrs, [(key, default)])
  {
    var base := [(key, default)];
    assert base[1..] == [];
    assert Overlay(base, attrs) == [(key, Lookup(attrs, key).GetOr(default))] + Overlay(base[1..], attrs);
  }

  /** Caller pairs under `key` all render nothing, so whether `array_merge`
      appends them or the default pair absorbs them makes no difference. */
  lemma {:induction false} RenderedAbsent(attrs: Attrs, base: Attrs, key: string, default: Value)
    requires forall i :: 0 <= i < |attrs| && attrs[i].0 == key ==> !Kept(attrs[i].1)
    ensures Rendered(Absent(attrs, base + [(key, default)])) == Rendered(Absent(attrs, base))
    decreases |attrs|
  {
    if |attrs| > 0 {
      var b := base + [(key, default)];
      var k := attrs[0].0;
      HasKeySnoc(base, key, default, k);
      assert forall i :: 1 <= i < |attrs| ==> attrs[i] == attrs[1..][i - 1];
      RenderedAbsent(attrs[1..], base, key, default);
      var hb: Attrs := if HasKey(b, k) then [] else [attrs[0]];
      var hs: Attrs := if HasKey(base, k) then [] else [attrs[0]];
      RenderedAppend(hb, Absent(attrs[1..], b));
      RenderedAppend(hs, Absent(attrs[1..], base));
      RenderedOne(k, attrs[0].1);
      assert Rendered(hb) == Rendered(hs);
    }
  }

  /** A default attribute whose merged value is dropped, and which no caller
      pair brings back, leaves the attribute string as if it were not among
      the defaults. */
  lemma DroppedDefault(base: Attrs, key: string, default: Value, attrs: Attrs)
    requires !Kept(Lookup(attrs, key).GetOr(default))
    requires forall i :: 0 <= i < |attrs| && attrs[i].0 == key ==> !Kept(attrs[i].1)
    ensures Attributes(Merge(base + [(key, default)], attrs)) == Attributes(Merge(base, attrs))
  {
    DroppedDefaultPieces(base, key, default, attrs);
  }

  lemma DroppedDefaultPieces(base: Attrs, key: string, default: Value, attrs: Attrs)
    requires !Kept(Lookup(attrs, key).GetOr(default))
    requires forall i :: 0 <= i < |attrs| && attrs[i].0 == key ==> !Kept(attrs[i].1)
    ensures Rendered(Merge(base + [(key, default)], attrs)) == Rendered(Merge(base, attrs))
  {
    var v := Lookup(attrs, key).GetOr(default);
    var o := Overlay(base, attrs);
    var a1 := Absent(attrs, base + [(key, default)]);
    var a0 := Absent(attrs, base);
    OverlaySnoc(base, key, default, attrs);
    assert Merge(base + [(key, default)], attrs) == o + [(key, v)] + a1;
    assert Merge(base, attrs) == o + a0;
    RenderedAbsent(attrs, base, key, default);
    RenderedAppend(o + [(key, v)], a1);
    RenderedAppend(o, [(key, v)]);
    RenderedOne(key, v);
    assert Rendered(o + [(key, v)]) == Rendered(o);
    RenderedAppend(o, a0);
  }

  // ---------------------------------------------------------------------------
  // Element helpers

  /** `a($href, $text, $attr)`: href leads the attributes unless the caller
      overrides its value; an empty text shows the href. */
  function A(href: string, text: Value, attrs: Attrs): (html: string)
    ensures Opens(html, "a")
    ensures EndsWith(html, Closing("a", if IsEmpty(text) then Str(href) else text))
    ensures Kept(Lookup(attrs, "href").GetOr(Str(href))) ==>
      Opens(html, "a" + " " + Quoted("href", ToStr(Lookup(attrs, "href").GetOr(Str(href)))))
  {
    var merged := Merge([("href", Str(href))], attrs);
    var content := if IsEmpty(text) then Str(href) else text;
    var v := Lookup(attrs, "href").GetOr(Str(href));
    MergeOverOne("href", Str(href), attrs);
    TagEnds("a", content, merged);
    if Kept(v) then
      FirstAttributeTag("a", content, "href", v, Absent(attrs, [("href", Str(href))]));
      Tag("a", content, merged)
    else
      Tag("a", content, merged)
  }


  /** `div($content, $attr)`. */
  function Div(content: Value, attrs: Attrs): (html: string)
    ensures Opens(html, "div")
    ensures EndsWith(html, Closing("div", content))
  {
    TagEnds("div", content, attrs);
    Tag("div", content, attrs)
  }


  /** `p($content, $attr)`. */
  function P(content: Value, attrs: Attrs): (html: string)
    ensures Opens(html, "p")
    ensures EndsWith(html, Closing("p", content))
  {
    TagEnds("p", content, attrs);
    Tag("p", content, attrs)
  }


  /** `span($content, $attr)`. */
  function Span(content: Value, attrs: Attrs): (html: string)
    ensures Opens(html, "span")
    ensures EndsWith(html, Closing("span", content))
  {
    TagEnds("span", content, attrs);
    Tag("span", content, attrs)
  }


  /** `stylesheet($href, $media, $attr)`: a self-closing link. */
  function Stylesheet(href: string, media: Value, attrs: Attrs): (html: string)
    ensures Opens(html, "link") && EndsWith(html, " />")
  {
    var merged := Merge([("rel", Str("stylesheet")), ("href", Str(href)), ("media", media)], attrs);
    SelfClosingTag("link", merged);
    Tag("link", Null, merged)
  }

  /** `script($src, $async, $attr)`, where `async` is the value the `async`
      attribute receives; the content is '' so the tag is always closed. */
  function Script(src: string, async: Value, attrs: Attrs): (html: string)
    ensures Opens(html, "script") && EndsWith(html, "></script>")
  {
    var merged := Merge([("src", Str(src)), ("async", async)], attrs);
    TagEnds("script", Str(""), merged);
    Literals();
    Tag("script", Str(""), merged)
  }


  /** `favicon($href, $attr)`: a self-closing link. */
  function Favicon(href: string, attrs: Attrs): (html: string)
    ensures Opens(html, "link") && EndsWith(html, " />")
  {
    var merged := Merge([("rel", Str("shortcut icon")), ("href", Str(href))], attrs);
    SelfClosingTag("link", merged);
    Tag("link", Null, merged)
  }

  /** `iframe($src, $attr, $placeholder)`; the placeholder is the content. */
  function Iframe(src: string, attrs: Attrs, placeholder: Value): (html: string)
    ensures Opens(html, "iframe")
    ensures EndsWith(html, Closing("iframe", placeholder))
  {
    var merged := Merge([("src", Str(src))], attrs);
    TagEnds("iframe", placeholder, merged);
    Tag("iframe", placeholder, merged)
  }


  /** `canonical($href, $attr)`: a self-closing link. */
  function Canonical(href: string, attrs: Attrs): (html: string)
    ensures Opens(html, "link") && EndsWith(html, " />")
  {
    var merged := Merge([("href", Str(href)), ("rel", Str("canonical"))], attrs);
    SelfClosingTag("link", merged);
    Tag("link", Null, merged)
  }

  /** `description($description, $attr)`: a self-closing meta tag. */
  function Description(description: Value, attrs: Attrs): (html: string)
    ensures Opens(html, "meta") && EndsWith(html, " />")
  {
    var merged := Merge([("name", Str("description")), ("content", description)], attrs);
    SelfClosingTag("meta", merged);
    Tag("meta", Null, merged)
  }

  /** `keywords($keywords, $attr)`: a self-closing meta tag. */
  function Keywords(keywords: Value, attrs: Attrs): (html: string)
    ensures Opens(html, "meta") && EndsWith(html, " />")
  {
    var merged := Merge([("name", Str("keywords")), ("content", keywords)], attrs);
    SelfClosingTag("meta", merged);
    Tag("meta", Null, merged)
  }

  /** `doctype()`: one markup declaration and nothing else. */
  function Doctype(): (html: string)
    ensures "<!" <= html && EndsWith(html, ">")
    ensures '<' !in html[1..] && '>' !in html[..|html| - 1]
  {
    "<!DOCTYPE html>"
  }

  /** `charset($charset)`, written out by hand; for a non-empty charset it is
      the meta tag the builder makes. */
  function Charset(charset: string): (html: string)
    ensures charset != "" ==> html == Tag("meta", Null, [("charset", Str(charset))])
  {
    if charset != "" then
      Single("charset", Str(charset));
      "<meta charset=\"" + charset + "\" />"
    else
      "<meta charset=\"" + charset + "\" />"
  }

  /** PHP_EOL on the Unix platforms the toolkit targets. */
  const EOL: string := "\n"

  const ShivUrl: string := "//html5shiv.googlecode.com/svn/trunk/html5.js"

  /** `shiv()`, written out by hand; its middle line is the script tag the
      builder makes for the shiv's URL. */
  function Shiv(): (html: string)
    ensures html == "<!--[if lt IE 9]>" + EOL + Script(ShivUrl, Null, []) + EOL + "<![endif]-->" + EOL
  {
    ScriptWithoutAsync(ShivUrl);
    "<!--[if lt IE 9]>" + EOL
      + ("<script " + Quoted("src", ShivUrl) + "></script>") + EOL
      + "<![endif]-->" + EOL
  }

  // ---------------------------------------------------------------------------
  // What the helpers produce without caller attributes

  /** A tag whose attributes render as the non-empty `a`. */
  lemma TagWith(name: string, content: Value, attrs: Attrs, a: string)
    requires Attributes(attrs) == a && a != ""
    ensures Tag(name, content, attrs) == "<" + name + " " + a + Closing(name, content)
  {
    assert Opening(name, a) == "<" + name + " " + a;
  }

  /** The literal pieces the helpers below are made of. A proof step for the
      solver, with no counterpart in the toolkit. */
  lemma Literals()
    ensures "<" + "a" + " " == "<a " && "<" + "link" + " " == "<link "
    ensures "<" + "meta" + " " == "<meta " && "<" + "script" + " " == "<script "
    ensures Closing("script", Str("")) == "></script>" && Closing("link", Null) == " />"
    ensures Closing("meta", Null) == " />"
    ensures forall t :: Closing("a", Str(t)) == ">" + t + "</a>"
  {
  }

  lemma AHrefOnly(href: string)
    requires href != ""
    ensures A(href, Null, []) == "<a " + Quoted("href", href) + (">" + href + "</a>")
  {
    var d := [("href", Str(href))];
    assert A(href, Null, []) == Tag("a", Str(href), d) by {
      MergeNothing(d);
    }
    Single("href", Str(href));
    TagWith("a", Str(href), d, Quoted("href", href));
    Literals();
  }

  /** A null media adds no `media` attribute; a kept one comes last. */
  lemma StylesheetMedia(href: string, media: Value)
    requires href != ""
    ensures Stylesheet(href, media, []) ==
      "<link " + (Quoted("rel", "stylesheet") + " " + Quoted("href", href)
      + (if Kept(media) then " " + Quoted("media", ToStr(media)) else "")) + " />"
  {
    var d := [("rel", Str("stylesheet")), ("href", Str(href)), ("media", media)];
    MergeNothing(d);
    var m := if Kept(media) then " " + Quoted("media", ToStr(media)) else "";
    var a := Quoted("rel", "stylesheet") + " " + Quoted("href", href) + m;
    StylesheetAttributes(href, media);
    TagWith("link", Null, d, a);
    Literals();
  }

  lemma StylesheetAttributes(href: string, media: Value)
    requires href != ""
    ensures Attributes([("rel", Str("stylesheet")), ("href", Str(href)), ("media", media)]) ==
      Quoted("rel", "stylesheet") + " " + Quoted("href", href)
      + (if Kept(media) then " " + Quoted("media", ToStr(media)) else "")
  {
    var d2 := [("media", media)];
    var d1 := [("href", Str(href))] + d2;
    var d0 := [("rel", Str("stylesheet"))] + d1;
    assert d0 == [("rel", Str("stylesheet")), ("href", Str(href)), ("media", media)];
    Single("media", media);
    AttributesFirst("href", Str(href), d2);
    AttributesFirst("rel", Str("stylesheet"), d1);
  }

  /** A dropped media value, null included, and no kept caller media give no
      `media` attribute: the link is the one made without the media default. */
  lemma StylesheetNoMedia(href: string, media: Value, attrs: Attrs)
    requires !Kept(media)
    requires forall i :: 0 <= i < |attrs| && attrs[i].0 == "media" ==> !Kept(attrs[i].1)
    ensures Stylesheet(href, media, attrs) == Tag("link", Null, Merge([("rel", Str("stylesheet")), ("href", Str(href))], attrs))
  {
    var base := [("rel", Str("stylesheet")), ("href", Str(href))];
    assert [("rel", Str("stylesheet")), ("href", Str(href)), ("media", media)] == base + [("media", media)];
    if HasKey(attrs, "media") {
      LookupFound(attrs, "media");
    }
    DroppedDefault(base, "media", media, attrs);
  }

  lemma ScriptWithoutAsync(src: string)
    requires src != ""
    ensures Script(src, Null, []) == "<script " + Quoted("src", src) + "></script>"
  {
    var d := [("src", Str(src)), ("async", Null)];
    MergeNothing(d);
    TwoAttributes("src", Str(src), "async", Null);
    TagWith("script", Str(""), d, Quoted("src", src));
    Literals();
  }

  lemma FaviconOnly(href: string)
    requires href != ""
    ensures Favicon(href, []) == "<link " + (Quoted("rel", "shortcut icon") + " " + Quoted("href", href)) + " />"
  {
    var d := [("rel", Str("shortcut icon")), ("href", Str(href))];
    MergeNothing(d);
    TwoAttributes("rel", Str("shortcut icon"), "href", Str(href));
    TagWith("link", Null, d, Quoted("rel", "shortcut icon") + " " + Quoted("href", href));
    Literals();
  }

  lemma CanonicalOnly(href: string)
    requires href != ""
    ensures Canonical(href, []) == "<link " + (Quoted("href", href) + " " + Quoted("rel", "canonical")) + " />"
  {
    var d := [("href", Str(href)), ("rel", Str("canonical"))];
    MergeNothing(d);
    TwoAttributes("href", Str(href), "rel", Str("canonical"));
    TagWith("link", Null, d, Quoted("href", href) + " " + Quoted("rel", "canonical"));
    Literals();
  }

  /** An empty description keeps the name attribute and drops the content. */
  lemma DescriptionOnly(description: Value)
    ensures Description(description, []) ==
      "<meta " + (Quoted("name", "description")
      + (if Kept(description) then " " + Quoted("content", ToStr(description)) else "")) + " />"
  {
    MergeNothing([("name", Str("description")), ("content", description)]);
    NamedMeta("description", description);
  }

  lemma KeywordsOnly(keywords: Value)
    ensures Keywords(keywords, []) ==
      "<meta " + (Quoted("name", "keywords")
      + (if Kept(keywords) then " " + Quoted("content", ToStr(keywords)) else "")) + " />"
  {
    MergeNothing([("name", Str("keywords")), ("content", keywords)]);
    NamedMeta("keywords", keywords);
  }

  /** A `<meta name=… content=…>` tag with a non-empty name. */
  lemma NamedMeta(name: string, content: Value)
    requires name != ""
    ensures Tag("meta", Null, [("name", Str(name)), ("content", content)]) ==
      "<meta " + (Quoted("name", name) + (if Kept(content) then " " + Quoted("content", ToStr(content)) else "")) + " />"
  {
    var d := [("name", Str(name)), ("content", content)];
    TwoAttributes("name", Str(name), "content", content);
    Literals();
    if Kept(content) {
      TagWith("meta", Null, d, Quoted("name", name) + " " + Quoted("content", ToStr(content)));
    } else {
      TagWith("meta", Null, d, Quoted("name", name));
    }
  }

  /** Two pairs, the first kept, render as the first then, if kept, the second. */
  lemma TwoAttributes(k1: string, v1: Value, k2: string, v2: Value)
    requires Kept(v1)
    ensures Attributes([(k1, v1), (k2, v2)]) ==
      Quoted(k1, ToStr(v1)) + (if Kept(v2) then " " + Quoted(k2, ToStr(v2)) else "")
  {
    assert [(k1, v1), (k2, v2)] == [(k1, v1)] + [(k2, v2)];
    Single(k2, v2);
    AttributesFirst(k1, v1, [(k2, v2)]);
  }
}
