/** `analyze_context`: where in a parsed HTML document a payload occurs.
    The parser itself is not modelled; a document is what the sweep reads
    of a parse tree: every tag in document order with its name, attributes
    and text, and the text of the whole document. */
module Context {
  import opened Text
  import opened Buckets

  /** An attribute value as the parser hands it over: one string, or the
      list of tokens of a multi-valued attribute such as `class`. */
  datatype AttrValue = Single(text: string) | Tokens(tokens: seq<string>)

  datatype Tag = Tag(name: string, attrs: map<string, AttrValue>, text: string)

  datatype Document = Document(tags: seq<Tag>, text: string)

  /** The context tags a payload can be given. */
  datatype Context = Attribute | ScriptBlock | HrefUrl | TextContent | Unknown | Error
  {
    /** The tag as the source spells it. */
    function Label(): string {
      match this
      case Attribute => "Attribute"
      case ScriptBlock => "ScriptBlock"
      case HrefUrl => "Href/URL"
      case TextContent => "TextContent"
      case Unknown => "Unknown"
      case Error => "Error"
    }
  }

  /** `" ".join(val)` for a list value, the value itself otherwise. */
  function AttrText(v: AttrValue): string {
    match v
    case Single(s) => s
    case Tokens(ts) => Join(ts, " ")
  }

  /** `payload in tag['href']`: a substring test on a string, but an element
      test when the value is a list. */
  predicate HrefContains(v: AttrValue, payload: string) {
    match v
    case Single(s) => IsSubstring(payload, s)
    case Tokens(ts) => payload in ts
  }

  predicate AttrHit(payload: string, t: Tag) {
    exists name :: name in t.attrs && IsSubstring(payload, AttrText(t.attrs[name]))
  }

  predicate ScriptHit(payload: string, t: Tag) {
    t.name == "script" && IsSubstring(payload, t.text)
  }

  predicate HrefHit(payload: string, t: Tag) {
    "href" in t.attrs && HrefContains(t.attrs["href"], payload)
  }

  /** Some tag before index n is hit by the attribute rule. */
  predicate AttrHitBefore(payload: string, tags: seq<Tag>, n: int)
    requires 0 <= n <= |tags|
  {
    exists i :: 0 <= i < n && AttrHit(payload, tags[i])
  }

  predicate ScriptHitBefore(payload: string, tags: seq<Tag>, n: int)
    requires 0 <= n <= |tags|
  {
    exists i :: 0 <= i < n && ScriptHit(payload, tags[i])
  }

  predicate HrefHitBefore(payload: string, tags: seq<Tag>, n: int)
    requires 0 <= n <= |tags|
  {
    exists i :: 0 <= i < n && HrefHit(payload, tags[i])
  }

  /** The set `context_found` ends with. */
  function Contexts(payload: string, doc: Document): (found: set<Context>)
    ensures found <= {Attribute, ScriptBlock, HrefUrl, TextContent}
  {
    var tags := doc.tags;
    (if AttrHitBefore(payload, tags, |tags|) then {Attribute} else {})
    + (if ScriptHitBefore(payload, tags, |tags|) then {ScriptBlock} else {})
    + (if HrefHitBefore(payload, tags, |tags|) then {HrefUrl} else {})
    + (if IsSubstring(payload, doc.text) then {TextContent} else {})
  }

  /** `list(context_found)`. Python lists a set in hash order, which varies
      between runs; the model lists it in one fixed order. */
  function AsList(found: set<Context>): (cs: seq<Context>)
    requires found <= {Attribute, ScriptBlock, HrefUrl, TextContent}
    ensures NoDuplicates(cs)
    ensures forall c :: c in cs <==> c in found
  {
    (if Attribute in found then [Attribute] else [])
    + (if ScriptBlock in found then [ScriptBlock] else [])
    + (if HrefUrl in found then [HrefUrl] else [])
    + (if TextContent in found then [TextContent] else [])
  }

  /** What `analyze_context` returns: the contexts found, or `["Unknown"]`
      when none is. */
  function ContextTags(payload: string, doc: Document): (cs: seq<Context>)
    ensures cs == [Unknown] <==> Contexts(payload, doc) == {}
    ensures cs != [Unknown] ==> |cs| > 0 && NoDuplicates(cs) && Unknown !in cs && Error !in cs
                                && forall c :: c in cs <==> c in Contexts(payload, doc)
  {
    var found := Contexts(payload, doc);
    if found == {} then [Unknown]
    else
      var cs := AsList(found);
      assert cs != [] by { var c :| c in found; assert c in cs; }
      assert cs != [Unknown] by { assert Unknown !in found; }
      cs
  }

  /** The strings `analyze_context` returns for a list of tags. */
  function Labels(cs: seq<Context>): (ls: seq<string>)
    ensures |ls| == |cs| && forall i :: 0 <= i < |cs| ==> ls[i] == cs[i].Label()
  {
    Map((c: Context) => c.Label(), cs)
  }

  /** Different tags are spelled differently. */
  lemma LabelInjective(c: Context, d: Context)
    ensures c.Label() == d.Label() <==> c == d
  {
  }

  /** The labels of a result of `analyze_context` are as distinct as its
      tags, and spell "Unknown" only for the no-match result. */
  lemma TagLabels(cs: seq<Context>)
    requires cs == [Unknown] || (NoDuplicates(cs) && Unknown !in cs && Error !in cs)
    ensures NoDuplicates(Labels(cs))
    ensures Labels(cs) == ["Unknown"] <==> cs == [Unknown]
    ensures cs != [Unknown] ==>
              forall i :: 0 <= i < |cs| ==> Labels(cs)[i] in ["Attribute", "ScriptBlock", "Href/URL", "TextContent"]
  {
    var ls := Labels(cs);
    forall i, j | 0 <= i < j < |ls| ensures ls[i] != ls[j] {
      LabelInjective(cs[i], cs[j]);
    }
    if ls == ["Unknown"] {
      LabelInjective(cs[0], Unknown);
    }
  }

  /** The strings returned are `["Unknown"]` exactly when no rule matched;
      otherwise they are distinct names of the four rules. */
  lemma ContextLabels(payload: string, doc: Document)
    ensures var ls := Labels(ContextTags(payload, doc));
            NoDuplicates(ls)
            && (ls == ["Unknown"] <==> Contexts(payload, doc) == {})
            && (ls != ["Unknown"] ==>
                  forall i :: 0 <= i < |ls| ==> ls[i] in ["Attribute", "ScriptBlock", "Href/URL", "TextContent"])
  {
    TagLabels(ContextTags(payload, doc));
  }

  /** `analyze_context(payload, html)` over the parsed document: the three
      loops and the text check fill `found`, which is then listed. */
  method AnalyzeContext(payload: string, doc: Document) returns (cs: seq<Context>)
    ensures cs == ContextTags(payload, doc)
  {
    var tags := doc.tags;
    var found: set<Context> := {};

    // for tag in soup.find_all(): for attr, val in tag.attrs.items()
    var i := 0;
    while i < |tags|
      invariant 0 <= i <= |tags|
      invariant found == if AttrHitBefore(payload, tags, i) then {Attribute} else {}
    {
      var attrs := tags[i].attrs;
      var rest := attrs.Keys;
      var hit := false;
      while rest != {}
        invariant rest <= attrs.Keys
        invariant hit <==> exists name :: name in attrs && name !in rest
                                          && IsSubstring(payload, AttrText(attrs[name]))
        invariant found == if AttrHitBefore(payload, tags, i) || hit then {Attribute} else {}
        decreases rest
      {
        var name :| name in rest;
        if IsSubstring(payload, AttrText(attrs[name])) {
          found := found + {Attribute};
          hit := true;
        }
        rest := rest - {name};
      }
      assert hit <==> AttrHit(payload, tags[i]);
      assert AttrHitBefore(payload, tags, i + 1) <==> AttrHitBefore(payload, tags, i) || hit;
      i := i + 1;
    }

    // for script in soup.find_all("script")
    i := 0;
    while i < |tags|
      invariant 0 <= i <= |tags|
      invariant found == (if AttrHitBefore(payload, tags, |tags|) then {Attribute} else {})
                         + (if ScriptHitBefore(payload, tags, i) then {ScriptBlock} else {})
    {
      if tags[i].name == "script" && IsSubstring(payload, tags[i].text) {
        found := found + {ScriptBlock};
      }
      assert ScriptHitBefore(payload, tags, i + 1) <==> ScriptHitBefore(payload, tags, i) || ScriptHit(payload, tags[i]);
      i := i + 1;
    }

    // for tag in soup.find_all(href=True)
    i := 0;
    while i < |tags|
      invariant 0 <= i <= |tags|
      invariant found == (if AttrHitBefore(payload, tags, |tags|) then {Attribute} else {})
                         + (if ScriptHitBefore(payload, tags, |tags|) then {ScriptBlock} else {})
                         + (if HrefHitBefore(payload, tags, i) then {HrefUrl} else {})
    {
      if "href" in tags[i].attrs && HrefContains(tags[i].attrs["href"], payload) {
        found := found + {HrefUrl};
      }
      assert HrefHitBefore(payload, tags, i + 1) <==> HrefHitBefore(payload, tags, i) || HrefHit(payload, tags[i]);
      i := i + 1;
    }

    // if payload in soup.get_text()
    if IsSubstring(payload, doc.text) {
      found := found + {TextContent};
    }
    assert found == Contexts(payload, doc);

    if found == {} {
      cs := [Unknown];
    } else {
      cs := AsList(found);
    }
  }

  /** A string `href` is also an attribute value, and a listed `href` token
      is part of the joined value, so "Href/URL" never comes without
      "Attribute". */
  lemma HrefImpliesAttribute(payload: string, doc: Document)
    ensures HrefUrl in Contexts(payload, doc) ==> Attribute in Contexts(payload, doc)
  {
    var tags := doc.tags;
    if HrefHitBefore(payload, tags, |tags|) {
      var i :| 0 <= i < |tags| && HrefHit(payload, tags[i]);
      var v := tags[i].attrs["href"];
      match v {
        case Single(s) =>
        case Tokens(ts) =>
          var j :| 0 <= j < |ts| && ts[j] == payload;
          JoinContainsPart(ts, " ", j);
      }
      assert AttrHit(payload, tags[i]);
    }
  }

  /** `<div data-x="PAYLOAD">` gives "Attribute" for the payload `PAYLOAD`. */
  lemma AttributeExample()
    ensures var doc := Document([Tag("div", map["data-x" := Single("PAYLOAD")], "")], "");
            Attribute in ContextTags("PAYLOAD", doc)
  {
    var t := Tag("div", map["data-x" := Single("PAYLOAD")], "");
    var doc := Document([t], "");
    assert AttrText(t.attrs["data-x"]) == "PAYLOAD";
    assert OccursAt("PAYLOAD", "PAYLOAD", 0);
    assert AttrHit("PAYLOAD", doc.tags[0]);
    assert AttrHitBefore("PAYLOAD", doc.tags, 1);
  }

  /** `<script>var x="PAYLOAD";</script>` gives "ScriptBlock". */
  lemma ScriptExample()
    ensures var doc := Document([Tag("script", map[], "var x=\"PAYLOAD\";")], "");
            ScriptBlock in ContextTags("PAYLOAD", doc)
  {
    var t := Tag("script", map[], "var x=\"PAYLOAD\";");
    var doc := Document([t], "");
    assert "var x=\"PAYLOAD\";"[7..14] == "PAYLOAD";
    assert OccursAt("PAYLOAD", t.text, 7);
    assert ScriptHit("PAYLOAD", doc.tags[0]);
  }

  /** A payload that occurs nowhere in the document gets exactly `["Unknown"]`. */
  lemma AbsentPayloadIsUnknown(payload: string, doc: Document)
    requires forall t :: t in doc.tags ==>
               (forall name :: name in t.attrs ==> !IsSubstring(payload, AttrText(t.attrs[name])))
               && !IsSubstring(payload, t.text)
    requires !IsSubstring(payload, doc.text)
    ensures ContextTags(payload, doc) == [Unknown]
  {
    var tags := doc.tags;
    forall i | 0 <= i < |tags|
      ensures !AttrHit(payload, tags[i]) && !ScriptHit(payload, tags[i]) && !HrefHit(payload, tags[i])
    {
      assert tags[i] in doc.tags;
      if "href" in tags[i].attrs {
        var v := tags[i].attrs["href"];
        if v.Tokens? && payload in v.tokens {
          var j :| 0 <= j < |v.tokens| && v.tokens[j] == payload;
          JoinContainsPart(v.tokens, " ", j);
        }
      }
    }
  }
}
