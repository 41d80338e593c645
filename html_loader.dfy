/**
 * The markup dependency loader (HTMLDependencyLoader.load).
 *
 * The loader walks an already-parsed markup tree, re-serialises every node into
 * a tree of source-map nodes tagged with the node's original (line, column, uri),
 * rewrites resource attributes on the allow-listed elements `link`, `script`
 * and `img`, and hands the embedded text of an element to a sub-loader chosen by
 * the element's text content type.
 *
 * The collaborators the loader only calls are parameters gathered in LoaderEnv:
 * the strategy's `resolve`, the content-type lookup of an element, the loader
 * registry, the sub-loader itself and the base64 encoder.
 */
module HtmlLoader {
  import opened Common

  /** The type stamped on every result of this loader. */
  const HtmlMimeType: string := "text/html"

  /** Text placed before and after the base64 source map appended to delegated text. */
  const SourceMapPrefix: string := "/*# sourceMappingURL=data:application/json;base64,"
  const SourceMapSuffix: string := " */"

  datatype Location = Location(line: int, column: int)

  datatype Attribute = Attribute(name: string, value: string)

  /** The parse tree, one constructor per `nodeName` the loader dispatches on. */
  datatype HtmlNode =
    | DocumentType(loc: Option<Location>, name: string)
    | Comment(loc: Option<Location>, data: string)
    | Text(loc: Option<Location>, value: string)
    | Document(loc: Option<Location>, isFragment: bool, childNodes: seq<HtmlNode>)
    | Element(loc: Option<Location>, nodeName: string, attrs: seq<Attribute>, childNodes: seq<HtmlNode>)

  /** A source-map node: a plain chunk of output, or children tagged with the
      original position (line, column) in the document `source`. */
  datatype SourceNode =
    | Chunk(text: string)
    | Tagged(line: int, column: int, source: string, children: seq<SourceNode>)

  /** What a sub-loader returns: its output and, possibly, its source map as JSON text. */
  datatype SubLoadResult = SubLoadResult(content: string, sourceMap: Option<string>)

  /**
   * The environment of one `load` call.
   * - uri: the uri of the dependency being loaded;
   * - resolve(reference, uri): the strategy's resolution, None when it rejects;
   * - textMimeType(element): the content type of the element's text, if any;
   * - hasLoader(type): whether a loader factory is registered for that type;
   * - subLoad(type, content): the sub-loader's result, None when it rejects;
   * - base64: base64 encoding of a string.
   */
  datatype LoaderEnv = LoaderEnv(
    uri: string,
    resolve: (string, string) -> Option<string>,
    textMimeType: HtmlNode -> Option<string>,
    hasLoader: string -> bool,
    subLoad: (string, string) -> Option<SubLoadResult>,
    base64: string -> string)

  datatype LoadError =
    | ResolutionError(reference: string, baseUri: string)
    | SubLoaderError(mimeType: string)
    | MissingTextLocation(nodeName: string)

  datatype Result<+T> = Ok(value: T) | Err(error: LoadError)

  /** The loader's result: the generated code, the tagged tree it was flattened
      from (the position map), the result type and the imported uris. */
  datatype LoadResult = LoadResult(
    content: string,
    sourceMap: SourceNode,
    mimeType: string,
    importedDependencyUris: seq<string>)

  // ---------------------------------------------------------------------------
  // Source-map nodes

  /** The generated code of a source-map node: its chunks in order. */
  function Code(n: SourceNode): string
    decreases n
  {
    match n
    case Chunk(t) => t
    case Tagged(_, _, _, cs) => CodeAll(cs)
  }

  function CodeAll(ns: seq<SourceNode>): string
    decreases ns
  {
    if ns == [] then "" else Code(ns[0]) + CodeAll(ns[1..])
  }

  lemma {:induction false} CodeAllAppend(a: seq<SourceNode>, b: seq<SourceNode>)
    ensures CodeAll(a + b) == CodeAll(a) + CodeAll(b)
    decreases a
  {
    if a == [] {
      assert a + b == b;
    } else {
      assert (a + b)[1..] == a[1..] + b;
      CodeAllAppend(a[1..], b);
    }
  }

  lemma CodeAllSingle(n: SourceNode)
    ensures CodeAll([n]) == Code(n)
  {
    assert [n][1..] == [];
  }

  /** Every tagged node of the tree names `uri` as its source. */
  predicate TaggedWith(n: SourceNode, uri: string)
    decreases n
  {
    match n
    case Chunk(_) => true
    case Tagged(_, _, source, cs) => source == uri && (forall i :: 0 <= i < |cs| ==> TaggedWith(cs[i], uri))
  }

  predicate AllTagged(ns: seq<SourceNode>, uri: string)
  {
    forall i :: 0 <= i < |ns| ==> TaggedWith(ns[i], uri)
  }

  lemma AllTaggedConcat(a: seq<SourceNode>, b: seq<SourceNode>, uri: string)
    requires AllTagged(a, uri) && AllTagged(b, uri)
    ensures AllTagged(a + b, uri)
  {
    forall i | 0 <= i < |a + b| ensures TaggedWith((a + b)[i], uri) {
      if i < |a| { assert (a + b)[i] == a[i]; } else { assert (a + b)[i] == b[i - |a|]; }
    }
  }

  // ---------------------------------------------------------------------------
  // Attributes

  /** The allow-list: only these elements may load resources. */
  predicate LoadsResources(nodeName: string)
  {
    nodeName == "link" || nodeName == "script" || nodeName == "img"
  }

  predicate IsProtocolRelative(value: string)
  {
    |value| >= 2 && value[..2] == "//"
  }

  /** A protocol-relative value gets an explicit `http:` protocol. */
  function WithProtocol(value: string): string
  {
    if IsProtocolRelative(value) then "http:" + value else value
  }

  /** `part` occurs somewhere in `s` (an unanchored regular-expression match). */
  predicate Contains(s: string, part: string)
    decreases |s|
  {
    |part| <= |s| && (s[..|part|] == part || (|s| > 0 && Contains(s[1..], part)))
  }

  lemma {:induction false} ContainsAt(s: string, part: string, i: nat)
    requires i + |part| <= |s| && s[i..i + |part|] == part
    ensures Contains(s, part)
    decreases i
  {
    if i > 0 {
      assert s[1..][i - 1..i - 1 + |part|] == s[i..i + |part|];
      ContainsAt(s[1..], part, i - 1);
    }
  }

  /** Attribute names matched by the unanchored pattern `src|href`. */
  predicate IsReferenceAttribute(name: string)
  {
    Contains(name, "src") || Contains(name, "href")
  }

  /** `part` occurs in `s` starting at position `i`. */
  predicate OccursAt(s: string, part: string, i: int)
  {
    0 <= i && i + |part| <= |s| && s[i..i + |part|] == part
  }

  /** `Contains` is an unanchored match: it holds exactly when `part` occurs
      at some position of `s`. */
  lemma ContainsIff(s: string, part: string)
    ensures Contains(s, part) <==> exists i :: OccursAt(s, part, i)
  {
    if Contains(s, part) {
      ContainsWitness(s, part);
    }
    if exists i :: OccursAt(s, part, i) {
      var i :| OccursAt(s, part, i);
      ContainsAt(s, part, i);
    }
  }

  /** An attribute is a reference exactly when `src` or `href` occurs
      anywhere in its name. */
  lemma ReferenceAttributeIff(name: string)
    ensures IsReferenceAttribute(name) <==> exists i :: OccursAt(name, "src", i) || OccursAt(name, "href", i)
  {
    ContainsIff(name, "src");
    ContainsIff(name, "href");
  }

  lemma {:induction false} ContainsWitness(s: string, part: string)
    requires Contains(s, part)
    ensures exists i :: OccursAt(s, part, i)
    decreases |s|
  {
    if s[..|part|] == part {
      assert OccursAt(s, part, 0);
    } else {
      ContainsWitness(s[1..], part);
      var i :| OccursAt(s[1..], part, i);
      assert s[i + 1..i + 1 + |part|] == s[1..][i..i + |part|];
      assert OccursAt(s, part, i + 1);
    }
  }

  /** The pattern is unanchored: on an allow-listed element any attribute whose
      name merely contains `src` or `href` is taken as a reference, so
      `data-src` and `hreflang` are handed to the strategy; `alt` is not. */
  lemma UnanchoredReferencePattern()
    ensures ResourceReference("img", Attribute("data-src", "a.png")) == Some("a.png")
    ensures ResourceReference("link", Attribute("hreflang", "en")) == Some("en")
    ensures ResourceReference("img", Attribute("alt", "a.png")).None?
    ensures ResourceReference("a", Attribute("href", "//b")).None?
  {
    DataSrcIsReference();
    HreflangIsReference();
    AltIsNoReference();
    AnchorLoadsNothing();
  }

  lemma DataSrcIsReference()
    ensures ResourceReference("img", Attribute("data-src", "a.png")) == Some("a.png")
  {
    ContainsAt("data-src", "src", 5);
    assert !IsProtocolRelative("a.png") by { assert "a.png"[0] != '/'; }
  }

  lemma HreflangIsReference()
    ensures ResourceReference("link", Attribute("hreflang", "en")) == Some("en")
  {
    ContainsAt("hreflang", "href", 0);
    assert !IsProtocolRelative("en") by { assert "en"[0] != '/'; }
  }

  lemma AltIsNoReference()
    ensures ResourceReference("img", Attribute("alt", "a.png")).None?
  {
    assert "alt"[..3] != "src" by { assert "alt"[0] != "src"[0]; }
    assert !Contains("alt"[1..], "src");
  }

  lemma AnchorLoadsNothing()
    ensures ResourceReference("a", Attribute("href", "//b")).None?
  {
    assert |"a"| != |"link"| && |"a"| != |"script"| && |"a"| != |"img"|;
  }

  function SerializeAttribute(name: string, value: string): string
  {
    " " + name + "=\"" + value + "\""
  }

  /** The value handed to the strategy for this attribute, if it is a resource reference. */
  function ResourceReference(parentName: string, attr: Attribute): (r: Option<string>)
    ensures r.Some? <==> LoadsResources(parentName) && IsReferenceAttribute(attr.name)
    ensures r.Some? && IsProtocolRelative(attr.value) ==> r.value == "http:" + attr.value
  {
    if LoadsResources(parentName) && IsReferenceAttribute(attr.name) then Some(WithProtocol(attr.value)) else None
  }

  /** The rewrite of one attribute: its serialised text and the uris it imports. */
  function MapAttribute(env: LoaderEnv, parentName: string, attr: Attribute): (r: Result<(string, seq<string>)>)
    ensures !LoadsResources(parentName) ==> r == Ok((SerializeAttribute(attr.name, attr.value), []))
    ensures LoadsResources(parentName) && !IsReferenceAttribute(attr.name) ==>
              r == Ok((SerializeAttribute(attr.name, WithProtocol(attr.value)), []))
    ensures r.Err? <==> ResourceReference(parentName, attr).Some? && env.resolve(ResourceReference(parentName, attr).value, env.uri).None?
    ensures r.Err? ==> r.error == ResolutionError(ResourceReference(parentName, attr).value, env.uri)
    ensures r.Ok? && ResourceReference(parentName, attr).Some? ==>
              var u := env.resolve(ResourceReference(parentName, attr).value, env.uri).value;
              r.value == (SerializeAttribute(attr.name, u), [u])
  {
    if !LoadsResources(parentName) then
      Ok((SerializeAttribute(attr.name, attr.value), []))
    else
      var value := WithProtocol(attr.value);
      if !IsReferenceAttribute(attr.name) then
        Ok((SerializeAttribute(attr.name, value), []))
      else
        match env.resolve(value, env.uri)
        case None => Err(ResolutionError(value, env.uri))
        case Some(u) => Ok((SerializeAttribute(attr.name, u), [u]))
  }

  /** The resource references of an element's attributes, in attribute order. */
  function AttributeReferences(parentName: string, attrs: seq<Attribute>): (r: seq<string>)
    ensures !LoadsResources(parentName) ==> r == []
    ensures |r| <= |attrs|
    decreases attrs
  {
    if attrs == [] then []
    else
      var head := ResourceReference(parentName, attrs[0]);
      (if head.Some? then [head.value] else []) + AttributeReferences(parentName, attrs[1..])
  }

  /** Resolves every reference; None as soon as one of them is rejected. */
  function ResolveAll(env: LoaderEnv, refs: seq<string>): (r: Option<seq<string>>)
    ensures r.Some? ==> |r.value| == |refs|
    ensures r.Some? ==> forall i :: 0 <= i < |refs| ==> env.resolve(refs[i], env.uri) == Some(r.value[i])
    ensures r.None? ==> exists i :: 0 <= i < |refs| && env.resolve(refs[i], env.uri).None?
    decreases refs
  {
    if refs == [] then Some([])
    else
      match env.resolve(refs[0], env.uri)
      case None => None
      case Some(u) =>
        match ResolveAll(env, refs[1..])
        case None => None
        case Some(us) => Some([u] + us)
  }

  lemma {:induction false} ResolveAllAppend(env: LoaderEnv, a: seq<string>, b: seq<string>)
    ensures ResolveAll(env, a + b) ==
              if ResolveAll(env, a).Some? && ResolveAll(env, b).Some?
              then Some(ResolveAll(env, a).value + ResolveAll(env, b).value)
              else None
    decreases a
  {
    if a == [] {
      assert a + b == b;
      assert ResolveAll(env, a) == Some([]);
      if ResolveAll(env, b).Some? {
        assert [] + ResolveAll(env, b).value == ResolveAll(env, b).value;
      }
    } else {
      assert (a + b)[0] == a[0] && (a + b)[1..] == a[1..] + b;
      ResolveAllAppend(env, a[1..], b);
      match env.resolve(a[0], env.uri)
      case None =>
      case Some(u) =>
        if ResolveAll(env, a[1..]).Some? && ResolveAll(env, b).Some? {
          ConsAssoc(u, ResolveAll(env, a[1..]).value, ResolveAll(env, b).value);
        }
    }
  }

  lemma ConsAssoc<T>(u: T, x: seq<T>, y: seq<T>)
    ensures [u] + (x + y) == ([u] + x) + y
  {
    assert forall i :: 0 <= i < 1 + |x| + |y| ==> ([u] + (x + y))[i] == (([u] + x) + y)[i];
  }

  /** The attributes of one element, mapped in order. */
  function MapAttributes(env: LoaderEnv, parentName: string, attrs: seq<Attribute>): (r: Result<(seq<SourceNode>, seq<string>)>)
    ensures r.Ok? <==> ResolveAll(env, AttributeReferences(parentName, attrs)).Some?
    ensures r.Ok? ==> ResolveAll(env, AttributeReferences(parentName, attrs)) == Some(r.value.1)
    ensures r.Ok? ==> |r.value.0| == |attrs| && forall i :: 0 <= i < |attrs| ==> r.value.0[i].Chunk?
    decreases attrs
  {
    if attrs == [] then Ok(([], []))
    else
      var refs := AttributeReferences(parentName, attrs);
      var head := ResourceReference(parentName, attrs[0]);
      ResolveAllAppend(env, if head.Some? then [head.value] else [], AttributeReferences(parentName, attrs[1..]));
      match MapAttribute(env, parentName, attrs[0])
      case Err(e) => Err(e)
      case Ok((text, imports)) =>
        match MapAttributes(env, parentName, attrs[1..])
        case Err(e) => Err(e)
        case Ok((rest, restImports)) => Ok(([Chunk(text)] + rest, imports + restImports))
  }

  // ---------------------------------------------------------------------------
  // Delegation of embedded text

  /** A node's location, or (1, 1) when the parser gave none. */
  function LocationOf(n: HtmlNode): (r: Location)
    ensures n.loc.Some? ==> r == n.loc.value
    ensures n.loc.None? ==> r == Location(1, 1)
  {
    if n.loc.Some? then n.loc.value else Location(1, 1)
  }

  /** An element delegates its text when a sub-loader is registered for the
      element's text type and the element has at least one child. */
  function Delegates(env: LoaderEnv, n: HtmlNode): (r: bool)
    ensures r ==> n.Element? && |n.childNodes| > 0
    ensures r ==> env.textMimeType(n).Some? && env.hasLoader(env.textMimeType(n).value)
    ensures env.textMimeType(n) == Some("") ==> !r
  {
    n.Element? && |n.childNodes| > 0 &&
    var mime := env.textMimeType(n);
    mime.Some? && mime.value != "" && env.hasLoader(mime.value)
  }

  /** `count` newline characters (none when count is not positive). */
  function Newlines(count: int): (r: string)
    ensures |r| == if count > 0 then count else 0
    ensures forall i :: 0 <= i < |r| ==> r[i] == '\n'
    decreases count
  {
    if count <= 0 then "" else "\n" + Newlines(count - 1)
  }

  /** The first child's text; a first child that is not a text node has no
      `value`, which string concatenation renders as "undefined". */
  function FirstChildText(first: HtmlNode): (r: string)
    ensures first.Text? ==> r == first.value
    ensures !first.Text? ==> r == "undefined"
  {
    if first.Text? then first.value else "undefined"
  }

  /** What the sub-loader receives: line - 1 newlines, then the first child's text. */
  function SubLoaderInput(line: int, first: HtmlNode): (r: string)
    ensures line >= 1 ==> |r| == line - 1 + |FirstChildText(first)|
    ensures line >= 1 ==> forall i :: 0 <= i < line - 1 ==> r[i] == '\n'
    ensures line >= 1 ==> r[line - 1..] == FirstChildText(first)
  {
    Newlines(line - 1) + FirstChildText(first)
  }

  /** The sub-loader's output as it is inlined: with its source map, if any,
      appended as a base64 `data:` URL comment. */
  function Inline(env: LoaderEnv, res: SubLoadResult): (r: string)
    ensures res.sourceMap.None? ==> r == res.content
    ensures res.sourceMap.Some? ==> r == res.content + SourceMapPrefix + env.base64(res.sourceMap.value) + SourceMapSuffix
  {
    if res.sourceMap.Some? then res.content + SourceMapPrefix + env.base64(res.sourceMap.value) + SourceMapSuffix
    else res.content
  }

  /** Delegation of an element's first child: the child's location and the inlined text. */
  function Delegate(env: LoaderEnv, n: HtmlNode): (r: Result<(Location, string)>)
    requires Delegates(env, n)
    ensures r.Ok? <==> DelegationOk(env, n)
    ensures r.Ok? ==>
              n.childNodes[0].loc == Some(r.value.0) &&
              var res := env.subLoad(env.textMimeType(n).value, SubLoaderInput(r.value.0.line, n.childNodes[0]));
              res.Some? && r.value.1 == Inline(env, res.value)
    ensures n.childNodes[0].loc.None? ==> r == Err(MissingTextLocation(n.nodeName))
    ensures n.childNodes[0].loc.Some? && !DelegationOk(env, n) ==> r == Err(SubLoaderError(env.textMimeType(n).value))
  {
    var mime := env.textMimeType(n).value;
    var first := n.childNodes[0];
    match first.loc
    case None => Err(MissingTextLocation(n.nodeName))
    case Some(loc) =>
      match env.subLoad(mime, SubLoaderInput(loc.line, first))
      case None => Err(SubLoaderError(mime))
      case Some(res) => Ok((loc, Inline(env, res)))
  }

  // ---------------------------------------------------------------------------
  // Positions

  /** `s` is the position-tagged image of node `n`: a span tagged with the
      loaded uri at n's location (1:1 when the parser gave none). A leaf holds
      one plain chunk; a document's children are its child nodes' images, in
      order; an element's children are plain chunks for the opening tag and
      each attribute, then its body, then a plain chunk for the closing tag. */
  predicate Positioned(env: LoaderEnv, s: SourceNode, n: HtmlNode)
    decreases n, 1
  {
    && s.Tagged? && s.source == env.uri
    && s.line == LocationOf(n).line && s.column == LocationOf(n).column
    && match n
       case Document(_, _, cs) => PositionedAll(env, s.children, cs)
       case Element(_, _, attrs, _) =>
         && |s.children| >= |attrs| + 3
         && AllChunks(s.children[..|attrs| + 2])
         && s.children[|s.children| - 1].Chunk?
         && BodyPositioned(env, s.children[|attrs| + 2..|s.children| - 1], n)
       case _ => |s.children| == 1 && s.children[0].Chunk?
  }

  /** An element's body: one span at the first child's own location when the
      element delegates its text, otherwise its child nodes' images in order. */
  predicate BodyPositioned(env: LoaderEnv, body: seq<SourceNode>, n: HtmlNode)
    requires n.Element?
    decreases n, 0
  {
    if Delegates(env, n) then
      && |body| == 1 && body[0].Tagged? && body[0].source == env.uri
      && n.childNodes[0].loc == Some(Location(body[0].line, body[0].column))
    else PositionedAll(env, body, n.childNodes)
  }

  /** The i-th span is the image of the i-th node. */
  predicate PositionedAll(env: LoaderEnv, ss: seq<SourceNode>, cs: seq<HtmlNode>)
    decreases cs, 2
  {
    |ss| == |cs| && (cs == [] || (Positioned(env, ss[0], cs[0]) && PositionedAll(env, ss[1..], cs[1..])))
  }

  predicate AllChunks(ss: seq<SourceNode>)
  {
    forall i :: 0 <= i < |ss| ==> ss[i].Chunk?
  }

  // ---------------------------------------------------------------------------
  // The recursive transform

  /** The resource references of a subtree, in document order: the children of
      a delegating element are not visited. */
  function References(env: LoaderEnv, n: HtmlNode): seq<string>
    decreases n, 1
  {
    match n
    case Document(_, _, cs) => ReferencesAll(env, cs)
    case Element(_, name, attrs, _) => AttributeReferences(name, attrs) + BodyReferences(env, n)
    case _ => []
  }

  function ReferencesAll(env: LoaderEnv, cs: seq<HtmlNode>): seq<string>
    decreases cs, 2
  {
    if cs == [] then [] else References(env, cs[0]) + ReferencesAll(env, cs[1..])
  }

  /** The transform of one node: a source-map node tagged with the node's
      location and the uris this subtree imports. */
  function MapNode(env: LoaderEnv, n: HtmlNode): (r: Result<(SourceNode, seq<string>)>)
    ensures r.Ok? ==> r.value.0.Tagged? && r.value.0.source == env.uri
    ensures r.Ok? ==> r.value.0.line == LocationOf(n).line && r.value.0.column == LocationOf(n).column
    ensures r.Ok? ==> TaggedWith(r.value.0, env.uri)
    ensures r.Ok? ==> ResolveAll(env, References(env, n)) == Some(r.value.1)
    ensures r.Ok? ==> Positioned(env, r.value.0, n)
    decreases n, 2
  {
    var loc := LocationOf(n);
    match n
    case DocumentType(_, name) => Ok((Tagged(loc.line, loc.column, env.uri, [Chunk("<!DOCTYPE " + name + ">")]), []))
    case Comment(_, data) => Ok((Tagged(loc.line, loc.column, env.uri, [Chunk("<!--" + data + "-->")]), []))
    case Text(_, value) => Ok((Tagged(loc.line, loc.column, env.uri, [Chunk(value)]), []))
    case Document(_, _, cs) =>
      (match MapChildren(env, cs)
       case Err(e) => Err(e)
       case Ok((spans, imports)) => Ok((Tagged(loc.line, loc.column, env.uri, spans), imports)))
    case Element(_, _, _, _) => MapElement(env, n)
  }

  /** An element: its opening tag with the mapped attributes, then its body,
      then the closing tag, which is always emitted. */
  function MapElement(env: LoaderEnv, n: HtmlNode): (r: Result<(SourceNode, seq<string>)>)
    requires n.Element?
    ensures r.Ok? ==> r.value.0.Tagged? && r.value.0.source == env.uri
    ensures r.Ok? ==> r.value.0.line == LocationOf(n).line && r.value.0.column == LocationOf(n).column
    ensures r.Ok? ==> TaggedWith(r.value.0, env.uri)
    ensures r.Ok? ==> ResolveAll(env, References(env, n)) == Some(r.value.1)
    ensures r.Ok? ==> Positioned(env, r.value.0, n)
    decreases n, 1
  {
    var loc := LocationOf(n);
    match MapAttributes(env, n.nodeName, n.attrs)
    case Err(e) => Err(e)
    case Ok((attrSpans, attrImports)) =>
      match ElementBody(env, n)
      case Err(e) => Err(e)
      case Ok((body, bodyImports)) =>
        var open := [Chunk("<" + n.nodeName)] + attrSpans + [Chunk(">")];
        var close := [Chunk("</" + n.nodeName + ">")];
        assert AllTagged(open, env.uri) && AllTagged(close, env.uri);
        AllTaggedConcat(open, body, env.uri);
        AllTaggedConcat(open + body, close, env.uri);
        ResolveAllAppend(env, AttributeReferences(n.nodeName, n.attrs), BodyReferences(env, n));
        ElementPositioned(env, n, attrSpans, body);
        Ok((Tagged(loc.line, loc.column, env.uri, open + body + close), attrImports + bodyImports))
  }

  /** The spans of an element are positioned: its start tag and attributes as
      plain chunks, then its positioned body, then its end tag. */
  lemma ElementPositioned(env: LoaderEnv, n: HtmlNode, attrSpans: seq<SourceNode>, body: seq<SourceNode>)
    requires n.Element?
    requires |attrSpans| == |n.attrs| && AllChunks(attrSpans)
    requires BodyPositioned(env, body, n)
    ensures var open := [Chunk("<" + n.nodeName)] + attrSpans + [Chunk(">")];
            var close := [Chunk("</" + n.nodeName + ">")];
            Positioned(env, Tagged(LocationOf(n).line, LocationOf(n).column, env.uri, open + body + close), n)
  {
    var open := [Chunk("<" + n.nodeName)] + attrSpans + [Chunk(">")];
    var children := open + body + [Chunk("</" + n.nodeName + ">")];
    assert children[..|n.attrs| + 2] == open;
    assert children[|n.attrs| + 2..|children| - 1] == body;
  }

  /** The references inside an element's body: none when it delegates. */
  function BodyReferences(env: LoaderEnv, n: HtmlNode): seq<string>
    requires n.Element?
    decreases n, 0
  {
    if Delegates(env, n) then [] else ReferencesAll(env, n.childNodes)
  }

  /** A delegation goes through: the first child has a location and the
      sub-loader accepts the padded text. */
  predicate DelegationOk(env: LoaderEnv, n: HtmlNode)
    requires Delegates(env, n)
  {
    var first := n.childNodes[0];
    first.loc.Some? && env.subLoad(env.textMimeType(n).value, SubLoaderInput(first.loc.value.line, first)).Some?
  }

  /** Every delegation in a subtree goes through, visiting the subtree as
      References does: the children of a delegating element are not visited. */
  predicate DelegationsOk(env: LoaderEnv, n: HtmlNode)
    decreases n, 1
  {
    match n
    case Document(_, _, cs) => DelegationsOkAll(env, cs)
    case Element(_, _, _, _) => BodyDelegationsOk(env, n)
    case _ => true
  }

  predicate BodyDelegationsOk(env: LoaderEnv, n: HtmlNode)
    requires n.Element?
    decreases n, 0
  {
    if Delegates(env, n) then DelegationOk(env, n) else DelegationsOkAll(env, n.childNodes)
  }

  predicate DelegationsOkAll(env: LoaderEnv, cs: seq<HtmlNode>)
    decreases cs, 2
  {
    cs == [] || (DelegationsOk(env, cs[0]) && DelegationsOkAll(env, cs[1..]))
  }

  /** An element's body: the delegated text of its first child, tagged with
      that child's location, or else its children mapped in order. */
  function ElementBody(env: LoaderEnv, n: HtmlNode): (r: Result<(seq<SourceNode>, seq<string>)>)
    requires n.Element?
    ensures r.Ok? ==> AllTagged(r.value.0, env.uri)
    ensures r.Ok? ==> ResolveAll(env, BodyReferences(env, n)) == Some(r.value.1)
    ensures r.Ok? ==> BodyPositioned(env, r.value.0, n)
    decreases n, 0
  {
    if Delegates(env, n) then
      match Delegate(env, n)
      case Err(e) => Err(e)
      case Ok((textLoc, text)) =>
        var inner := Tagged(textLoc.line, textLoc.column, env.uri, [Chunk(text)]);
        assert TaggedWith(inner, env.uri);
        Ok(([inner], []))
    else
      MapChildren(env, n.childNodes)
  }

  function MapChildren(env: LoaderEnv, cs: seq<HtmlNode>): (r: Result<(seq<SourceNode>, seq<string>)>)
    ensures r.Ok? ==> |r.value.0| == |cs|
    ensures r.Ok? ==> AllTagged(r.value.0, env.uri)
    ensures r.Ok? ==> ResolveAll(env, ReferencesAll(env, cs)) == Some(r.value.1)
    ensures r.Ok? ==> PositionedAll(env, r.value.0, cs)
    decreases cs, 3
  {
    if cs == [] then Ok(([], []))
    else
      match MapNode(env, cs[0])
      case Err(e) => Err(e)
      case Ok((span, imports)) =>
        match MapChildren(env, cs[1..])
        case Err(e) => Err(e)
        case Ok((spans, restImports)) =>
          ResolveAllAppend(env, References(env, cs[0]), ReferencesAll(env, cs[1..]));
          AllTaggedConcat([span], spans, env.uri);
          assert ([span] + spans)[1..] == spans;
          Ok(([span] + spans, imports + restImports))
  }

  // ---------------------------------------------------------------------------
  // The serialisation, stated directly on strings

  /** The markup a node serialises to, written without source-map nodes:
      doctype, comment and text leaves, documents as the concatenation of their
      children, elements as opening tag, attributes, body and closing tag. */
  function Render(env: LoaderEnv, n: HtmlNode): (r: Result<string>)
    ensures r.Ok? <==> ResolveAll(env, References(env, n)).Some? && DelegationsOk(env, n)
    ensures r.Ok? && n.Element? ==>
              && |r.value| >= |n.nodeName| + 1 && r.value[..|n.nodeName| + 1] == "<" + n.nodeName
              && |r.value| >= |n.nodeName| + 3 && r.value[|r.value| - (|n.nodeName| + 3)..] == "</" + n.nodeName + ">"
    decreases n, 2
  {
    match n
    case DocumentType(_, name) => Ok("<!DOCTYPE " + name + ">")
    case Comment(_, data) => Ok("<!--" + data + "-->")
    case Text(_, value) => Ok(value)
    case Document(_, _, cs) => RenderAll(env, cs)
    case Element(_, _, _, _) => RenderElement(env, n)
  }

  /** An element: opening tag with its attributes, body, closing tag. */
  function RenderElement(env: LoaderEnv, n: HtmlNode): (r: Result<string>)
    requires n.Element?
    ensures r.Ok? <==> ResolveAll(env, References(env, n)).Some? && BodyDelegationsOk(env, n)
    ensures r.Ok? ==>
              && |r.value| >= |n.nodeName| + 1 && r.value[..|n.nodeName| + 1] == "<" + n.nodeName
              && |r.value| >= |n.nodeName| + 3 && r.value[|r.value| - (|n.nodeName| + 3)..] == "</" + n.nodeName + ">"
    decreases n, 1
  {
    ResolveAllAppend(env, AttributeReferences(n.nodeName, n.attrs), BodyReferences(env, n));
    match RenderAttributes(env, n.nodeName, n.attrs)
    case Err(e) => Err(e)
    case Ok(attrText) =>
      match RenderBody(env, n)
      case Err(e) => Err(e)
      case Ok(body) =>
        MarkupEnds(n.nodeName, attrText, body);
        Ok("<" + n.nodeName + attrText + ">" + body + "</" + n.nodeName + ">")
  }

  /** An element's markup opens with its start tag's name and closes with its end tag. */
  lemma MarkupEnds(name: string, attrText: string, body: string)
    ensures var m := "<" + name + attrText + ">" + body + "</" + name + ">";
            && |m| >= |name| + 3
            && m[..|name| + 1] == "<" + name
            && m[|m| - (|name| + 3)..] == "</" + name + ">"
  {
    var m := "<" + name + attrText + ">" + body + "</" + name + ">";
    assert m == ("<" + name) + (attrText + ">" + body) + ("</" + name + ">");
  }

  /** An element's body: the delegated text, or the children's markup. */
  function RenderBody(env: LoaderEnv, n: HtmlNode): (r: Result<string>)
    requires n.Element?
    ensures r.Ok? <==> ResolveAll(env, BodyReferences(env, n)).Some? && BodyDelegationsOk(env, n)
    ensures r.Ok? && Delegates(env, n) ==> Delegate(env, n).Ok? && r.value == Delegate(env, n).value.1
    ensures Delegates(env, n) && Delegate(env, n).Ok? ==> r == Ok(Delegate(env, n).value.1)
    decreases n, 0
  {
    if Delegates(env, n) then
      match Delegate(env, n)
      case Err(e) => Err(e)
      case Ok((_, text)) => Ok(text)
    else RenderAll(env, n.childNodes)
  }

  function RenderAll(env: LoaderEnv, cs: seq<HtmlNode>): (r: Result<string>)
    ensures r.Ok? <==> ResolveAll(env, ReferencesAll(env, cs)).Some? && DelegationsOkAll(env, cs)
    ensures r.Ok? <==> forall i :: 0 <= i < |cs| ==> Render(env, cs[i]).Ok?
    decreases cs, 2
  {
    if cs == [] then Ok("")
    else
      ResolveAllAppend(env, References(env, cs[0]), ReferencesAll(env, cs[1..]));
      match Render(env, cs[0])
      case Err(e) => Err(e)
      case Ok(head) =>
        match RenderAll(env, cs[1..])
        case Err(e) => Err(e)
        case Ok(rest) => Ok(head + rest)
  }

  function RenderAttributes(env: LoaderEnv, parentName: string, attrs: seq<Attribute>): (r: Result<string>)
    ensures r.Ok? <==> ResolveAll(env, AttributeReferences(parentName, attrs)).Some?
    ensures !LoadsResources(parentName) ==> r.Ok?
    decreases attrs
  {
    if attrs == [] then Ok("")
    else
      var head := ResourceReference(parentName, attrs[0]);
      ResolveAllAppend(env, if head.Some? then [head.value] else [], AttributeReferences(parentName, attrs[1..]));
      match MapAttribute(env, parentName, attrs[0])
      case Err(e) => Err(e)
      case Ok((text, _)) =>
        match RenderAttributes(env, parentName, attrs[1..])
        case Err(e) => Err(e)
        case Ok(rest) => Ok(text + rest)
  }

  lemma {:induction false} MapAttributesRender(env: LoaderEnv, parentName: string, attrs: seq<Attribute>)
    ensures MapAttributes(env, parentName, attrs).Ok? <==> RenderAttributes(env, parentName, attrs).Ok?
    ensures MapAttributes(env, parentName, attrs).Ok? ==>
              CodeAll(MapAttributes(env, parentName, attrs).value.0) == RenderAttributes(env, parentName, attrs).value
    ensures MapAttributes(env, parentName, attrs).Err? ==>
              MapAttributes(env, parentName, attrs).error == RenderAttributes(env, parentName, attrs).error
    decreases attrs
  {
    if attrs != [] {
      MapAttributesRender(env, parentName, attrs[1..]);
      var m := MapAttributes(env, parentName, attrs);
      if m.Ok? {
        var tail := MapAttributes(env, parentName, attrs[1..]).value.0;
        var head := Chunk(MapAttribute(env, parentName, attrs[0]).value.0);
        assert m.value.0 == [head] + tail;
        assert ([head] + tail)[1..] == tail;
      }
    }
  }

  /** The generated code of a node's source-map tree is exactly its markup,
      and the transform fails, with the same error, exactly when the
      serialisation does. */
  lemma {:induction false} MapNodeRendersMarkup(env: LoaderEnv, n: HtmlNode)
    ensures MapNode(env, n).Ok? <==> Render(env, n).Ok?
    ensures MapNode(env, n).Ok? ==> Code(MapNode(env, n).value.0) == Render(env, n).value
    ensures MapNode(env, n).Err? ==> MapNode(env, n).error == Render(env, n).error
    decreases n, 2
  {
    match n
    case DocumentType(_, name) => CodeAllSingle(Chunk("<!DOCTYPE " + name + ">"));
    case Comment(_, data) => CodeAllSingle(Chunk("<!--" + data + "-->"));
    case Text(_, value) => CodeAllSingle(Chunk(value));
    case Document(_, _, cs) => MapChildrenRendersMarkup(env, cs);
    case Element(_, _, _, _) => MapElementRendersMarkup(env, n);
  }

  lemma {:induction false} MapElementRendersMarkup(env: LoaderEnv, n: HtmlNode)
    requires n.Element?
    ensures MapElement(env, n).Ok? <==> Render(env, n).Ok?
    ensures MapElement(env, n).Ok? ==> Code(MapElement(env, n).value.0) == Render(env, n).value
    ensures MapElement(env, n).Err? ==> MapElement(env, n).error == Render(env, n).error
    decreases n, 1
  {
    var name := n.nodeName;
    MapAttributesRender(env, name, n.attrs);
    ElementBodyRendersMarkup(env, n);
    var attrs := MapAttributes(env, name, n.attrs);
    var body := ElementBody(env, n);
    if attrs.Ok? && body.Ok? {
      ElementCode(name, attrs.value.0, body.value.0);
    }
  }

  /** The code of an element's span list: tags around attributes and body. */
  lemma ElementCode(name: string, attrSpans: seq<SourceNode>, body: seq<SourceNode>)
    ensures CodeAll([Chunk("<" + name)] + attrSpans + [Chunk(">")] + body + [Chunk("</" + name + ">")])
         == "<" + name + CodeAll(attrSpans) + ">" + CodeAll(body) + "</" + name + ">"
  {
    var first := [Chunk("<" + name)];
    var open := first + attrSpans + [Chunk(">")];
    var close := [Chunk("</" + name + ">")];
    CodeAllSingle(first[0]);
    CodeAllSingle(Chunk(">"));
    CodeAllSingle(close[0]);
    CodeAllAppend(first, attrSpans);
    CodeAllAppend(first + attrSpans, [Chunk(">")]);
    CodeAllAppend(open, body);
    CodeAllAppend(open + body, close);
  }

  lemma {:induction false} ElementBodyRendersMarkup(env: LoaderEnv, n: HtmlNode)
    requires n.Element?
    ensures ElementBody(env, n).Ok? <==> RenderBody(env, n).Ok?
    ensures ElementBody(env, n).Ok? ==> CodeAll(ElementBody(env, n).value.0) == RenderBody(env, n).value
    ensures ElementBody(env, n).Err? ==> ElementBody(env, n).error == RenderBody(env, n).error
    decreases n, 0
  {
    if Delegates(env, n) {
      var d := Delegate(env, n);
      if d.Ok? {
        var inner := Tagged(d.value.0.line, d.value.0.column, env.uri, [Chunk(d.value.1)]);
        CodeAllSingle(inner);
        CodeAllSingle(Chunk(d.value.1));
      }
    } else {
      MapChildrenRendersMarkup(env, n.childNodes);
    }
  }

  lemma {:induction false} MapChildrenRendersMarkup(env: LoaderEnv, cs: seq<HtmlNode>)
    ensures MapChildren(env, cs).Ok? <==> RenderAll(env, cs).Ok?
    ensures MapChildren(env, cs).Ok? ==> CodeAll(MapChildren(env, cs).value.0) == RenderAll(env, cs).value
    ensures MapChildren(env, cs).Err? ==> MapChildren(env, cs).error == RenderAll(env, cs).error
    decreases cs, 3
  {
    if cs != [] {
      MapNodeRendersMarkup(env, cs[0]);
      MapChildrenRendersMarkup(env, cs[1..]);
      var m := MapChildren(env, cs);
      if m.Ok? {
        var head := MapNode(env, cs[0]).value.0;
        var tail := MapChildren(env, cs[1..]).value.0;
        assert m.value.0 == [head] + tail;
        assert ([head] + tail)[1..] == tail;
      }
    }
  }

  // ---------------------------------------------------------------------------
  // The loader

  /** HTMLDependencyLoader.load on an already-parsed document. */
  function Load(env: LoaderEnv, document: HtmlNode): (r: Result<LoadResult>)
    ensures r.Ok? <==> Render(env, document).Ok?
    ensures r.Ok? ==> r.value.content == Render(env, document).value
    ensures r.Err? ==> r.error == Render(env, document).error
    ensures r.Ok? ==> r.value.mimeType == HtmlMimeType
    ensures r.Ok? ==> ResolveAll(env, References(env, document)).Some?
    ensures r.Ok? ==> multiset(r.value.importedDependencyUris) == multiset(ResolveAll(env, References(env, document)).value)
    ensures r.Ok? ==> |r.value.importedDependencyUris| == |References(env, document)|
    ensures ResolveAll(env, References(env, document)).None? ==> r.Err?
    ensures r.Ok? <==> ResolveAll(env, References(env, document)).Some? && DelegationsOk(env, document)
    ensures r.Ok? ==> Code(r.value.sourceMap) == r.value.content
    ensures r.Ok? ==> Positioned(env, r.value.sourceMap, document) && TaggedWith(r.value.sourceMap, env.uri)
  {
    MapNodeRendersMarkup(env, document);
    match MapNode(env, document)
    case Err(e) => Err(e)
    case Ok((tree, imports)) => Ok(LoadResult(Code(tree), tree, HtmlMimeType, imports))
  }
}
