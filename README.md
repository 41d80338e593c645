# Tandem: markup loader, merged style rule and sandbox, in Dafny

This project models three parts of the Tandem visual editor and proves properties of each.

**The markup dependency loader** (`HTMLDependencyLoader.load`, module `HtmlLoader`) walks a parsed markup tree. It re-serialises each node into a tree of source-map nodes, and each of those nodes is tagged with the original line, column and document uri.
- On `link`, `script` and `img` elements, a protocol-relative value gets `http:` prepended. Any attribute whose name contains `src` or `href` is resolved through the strategy and recorded as an import.
- When a loader is registered for an element's text content type, the element's first child is handed to that sub-loader. The text is prefixed with newlines so that line numbers are preserved, and the result is inlined, with its source map appended as a base64 `data:` comment. The remaining children are neither emitted nor scanned for references.
- A first child that is not a text node has no text value, so the sub-loader receives the string `undefined` after the padding.
- A first child without a location makes the load fail with `MissingTextLocation`. This models the error the source raises when it reads the line of a missing location.

The model proves the following:
- The generated code is exactly the markup given by `Render`, a direct string serialiser. `Render` shares the attribute rewrite and the delegation with the transform; only the concatenation of strings replaces the building of source-map nodes.
- The transform fails, with the same error, exactly when that serialiser does.
- The returned position map is the tree whose code is the content, and it is `Positioned` against the document. Every span carries the loaded uri and its own node's line and column, defaulting to 1:1. A document's spans are its children's, one per child in order. A delegated body is one span at the first child's own location.
- The imports are exactly the strategy's resolutions of the document's references.
- The result type is always the markup type.

**The merged style of an element** (`MergedCSSStyleRule`, module `MergedStyleRule`) records which style source (the element itself or a CSS rule) declares each property.
- The main source of a property is the first source that set it. Every source that set it is kept in order, and `allSources` lists each such source once.
- `reset` rebuilds all three from the element's own style and the matching rules of the traversal. An inherited match contributes only inherited properties that do not yet have a main source.

The model states the class's operations against a value-level index (`SetProp`, `Rebuild`) and proves the following:
- The index invariant holds after every operation.
- After a reset, the target owns each of its own declarations.
- Every property declared directly on the target has a main source.
- Every other property that has a main source is an inherited one.
- `matchingRules` and `inheritedRules` partition `mainSources`.

**The sandbox** (`Sandbox`, module `Sandbox`) keeps an entry set by `open` and a lazily created global, and drives a module importer. The model splits `open` at its `await`. This lets `onImporterChange`, which does not wait for `reset`, be stated in the order the events happen: the re-broadcast change always comes before `Evaluated`.

## Model

Source paths are relative to the repository root.

| member | source | states |
|---|---|---|
| HtmlLoader.ResourceReference | src/@tandem/html-extension/sandbox/html-loader.ts:53-60 | an attribute is a resource reference exactly when its element is `link`, `script` or `img` and its name matches `src` or `href`; a value starting with `//` is handed on as `http:` + value |
| HtmlLoader.DataSrcIsReference | src/@tandem/html-extension/sandbox/html-loader.ts:53-58 | `data-src` on `img` is handed to the strategy as a reference |
| HtmlLoader.HreflangIsReference | src/@tandem/html-extension/sandbox/html-loader.ts:53-58 | `hreflang` on `link` is handed to the strategy as a reference |
| HtmlLoader.AltIsNoReference | src/@tandem/html-extension/sandbox/html-loader.ts:53-58 | `alt` on `img` is not a reference |
| HtmlLoader.AnchorLoadsNothing | src/@tandem/html-extension/sandbox/html-loader.ts:53-58 | `href` on `a` is not a reference, since `a` is not an element that loads resources |
| HtmlLoader.ContainsIff | src/@tandem/html-extension/sandbox/html-loader.ts:57 | the unanchored name test holds exactly when the part occurs at some position of the name |
| HtmlLoader.ReferenceAttributeIff | src/@tandem/html-extension/sandbox/html-loader.ts:57 | an attribute name is a reference exactly when `src` or `href` occurs anywhere in it |
| HtmlLoader.UnanchoredReferencePattern | src/@tandem/html-extension/sandbox/html-loader.ts:53-58 | the name test is unanchored: `data-src` on `img` and `hreflang` on `link` are resolved as references; `alt` is not, and `href` on `a` is not |
| HtmlLoader.MapAttribute | src/@tandem/html-extension/sandbox/html-loader.ts:49-65 | attributes of elements that are not allow-listed are emitted unchanged; non-reference attributes of allow-listed ones are emitted with the protocol fix; a reference fails exactly when the strategy rejects it, with an error naming the reference and the document's uri, and otherwise is emitted as the resolved uri and imported once |
| HtmlLoader.AttributeReferences | src/@tandem/html-extension/sandbox/html-loader.ts:53-61 | an element that is not allow-listed contributes no reference; there are never more references than attributes |
| HtmlLoader.ResolveAll | src/@tandem/html-extension/sandbox/html-loader.ts:59-60 | on success every reference is resolved, position by position, to the uri that is recorded; a failure means some reference was rejected |
| HtmlLoader.ResolveAllAppend | src/@tandem/html-extension/sandbox/html-loader.ts:59-60 | resolving two lists of references together gives the two results concatenated, and fails exactly when either part fails |
| HtmlLoader.MapAttributes | src/@tandem/html-extension/sandbox/html-loader.ts:83-87 | the attributes map without error exactly when all of the element's references resolve; the imports are those resolutions; one plain chunk per attribute |
| HtmlLoader.Newlines | src/@tandem/html-extension/sandbox/html-loader.ts:99 | the padding consists of exactly `line - 1` newline characters, none when that is not positive |
| HtmlLoader.LocationOf | src/@tandem/html-extension/sandbox/html-loader.ts:68 | a node's position is the location the parser gave it, or line 1, column 1 when it gave none |
| HtmlLoader.Delegates | src/@tandem/html-extension/sandbox/html-loader.ts:90-94 | only an element with at least one child, whose text type is present, non-empty and has a registered loader, delegates its text |
| HtmlLoader.FirstChildText | src/@tandem/html-extension/sandbox/html-loader.ts:97-103 | a text first child is handed on by its value; any other first child has no value and is handed on as the string `undefined` |
| HtmlLoader.SubLoaderInput | src/@tandem/html-extension/sandbox/html-loader.ts:97-104 | the sub-loader receives `line - 1` newlines followed by the first child's text, so the text keeps its original line numbers |
| HtmlLoader.Inline | src/@tandem/html-extension/sandbox/html-loader.ts:106-111 | the sub-loader's content is kept as is when it returns no map, and otherwise is followed by the base64 `data:` source-map comment |
| HtmlLoader.Delegate | src/@tandem/html-extension/sandbox/html-loader.ts:94-113 | delegation succeeds exactly when the first child has a location and the sub-loader accepts the padded text; a first child without a location fails with `MissingTextLocation`, a rejected sub-load with `SubLoaderError` for the text type; on success, the delegated text is tagged with the first child's own location, and is the inlined result of the sub-loader chosen by the element's text type applied to the padded text |
| HtmlLoader.MapNode | src/@tandem/html-extension/sandbox/html-loader.ts:67-121 | every node becomes a span that is `Positioned` against it: tagged with the loaded uri at the node's own location (default 1:1), with each descendant span at its own node's location; its imports are the resolutions of the subtree's references |
| HtmlLoader.ElementPositioned | src/@tandem/html-extension/sandbox/html-loader.ts:79-120 | an element's spans are positioned: the start tag and each attribute as plain chunks, then the body, then the end tag |
| HtmlLoader.MapElement | src/@tandem/html-extension/sandbox/html-loader.ts:79-120 | an element's node is tagged with its location and uri; its imports are the resolutions of its attribute references followed by those of its body |
| HtmlLoader.ElementBody | src/@tandem/html-extension/sandbox/html-loader.ts:90-117 | a delegating element's body is one span tagged at the first child's own location and imports nothing from the children; otherwise it is the children's spans, each positioned against its child; every body span carries the loaded uri |
| HtmlLoader.MapChildren | src/@tandem/html-extension/sandbox/html-loader.ts:116 | the i-th span is the image of the i-th child, positioned at that child's location, all tagged with the loaded uri; the imports are the children's resolutions in document order |
| HtmlLoader.MapAttributesRender | src/@tandem/html-extension/sandbox/html-loader.ts:64 | the attribute chunks' code is exactly the serialised `name="value"` text, and both fail with the same error |
| HtmlLoader.MapNodeRendersMarkup | src/@tandem/html-extension/sandbox/html-loader.ts:67-121 | the generated code of a node's tree equals its markup under `Render`; the transform fails exactly when `Render` fails, with the same error |
| HtmlLoader.MapElementRendersMarkup | src/@tandem/html-extension/sandbox/html-loader.ts:79-120 | an element's code is its opening tag with attributes, its body and its closing tag, and it fails exactly when its serialisation does |
| HtmlLoader.ElementBodyRendersMarkup | src/@tandem/html-extension/sandbox/html-loader.ts:94-117 | a body's code is the delegated text or the children's markup, and it fails exactly when its serialisation does |
| HtmlLoader.MapChildrenRendersMarkup | src/@tandem/html-extension/sandbox/html-loader.ts:116 | children's code is their markup concatenated in order, and it fails exactly when one of them does |
| HtmlLoader.Render | src/@tandem/html-extension/sandbox/html-loader.ts:67-121 | a node serialises exactly when all its references resolve and every delegation in it goes through (`DelegationsOk`), so doctype, comment and text leaves always serialise; an element's markup starts with its opening tag and always ends with its closing tag |
| HtmlLoader.RenderElement | src/@tandem/html-extension/sandbox/html-loader.ts:79-120 | an element serialises exactly when its attribute and body references resolve and its body's delegations go through; its markup then opens with `<` and its name and closes with `</name>` |
| HtmlLoader.RenderBody | src/@tandem/html-extension/sandbox/html-loader.ts:94-117 | a body serialises exactly when its references resolve and its delegations go through; a delegating body whose delegation succeeds is exactly the delegated, inlined text |
| HtmlLoader.RenderAll | src/@tandem/html-extension/sandbox/html-loader.ts:116 | a list of nodes serialises exactly when every node does, and exactly when all of their references resolve and all of their delegations go through |
| HtmlLoader.RenderAttributes | src/@tandem/html-extension/sandbox/html-loader.ts:83-87 | an element's attributes serialise exactly when all of its references resolve, and always when the element is not allow-listed |
| HtmlLoader.Load | src/@tandem/html-extension/sandbox/html-loader.ts:39-133 | loading succeeds exactly when the document serialises, that is exactly when every reference resolves and every delegation goes through; the content is that markup; the returned map is a tree whose code is the content, positioned against the document and tagged with its uri throughout; the type is the markup type; the imports are, as a multiset, the resolutions of all of the document's references, one per reference; a rejected reference makes the load fail |
| MergedStyleRule.ValueOf | src/@tandem/html-extension/editor/browser/models/merged-style-rule.ts:104 | a style gives a property a value exactly when it declares that property, and that value comes from a declaration of the property |
| MergedStyleRule.ValueOfDeclared | src/@tandem/html-extension/editor/browser/models/merged-style-rule.ts:104 | in a style, whose property names are distinct, the value looked up is the one declared for the property |
| MergedStyleRule.SetProp | src/@tandem/html-extension/editor/browser/models/merged-style-rule.ts:85-100 | the first call for a name makes the source its main source and appends the name to the key order; later calls leave the main sources alone; every call appends the source to the name's list; `allSources` gains the source only if it is new |
| MergedStyleRule.SetPropValid | src/@tandem/html-extension/editor/browser/models/merged-style-rule.ts:85-100 | setProperty keeps the index invariant: keys are distinct and agree between main and sources, each list starts with the main source, every listed source is in the duplicate-free `allSources` |
| MergedStyleRule.AddDecl | src/@tandem/html-extension/editor/browser/models/merged-style-rule.ts:166-168 | a declaration of an inherited match is skipped, leaving everything as it was, unless its property is inherited and has no main source under its camel-cased name, in which case it is recorded exactly as setProperty records it; a declaration of a direct match is always recorded exactly as setProperty records it, even when the name already has sources; only its own name can gain a source list; `allSources` gains at most the match's rule, and nothing when it is already there |
| MergedStyleRule.AddDecls | src/@tandem/html-extension/editor/browser/models/merged-style-rule.ts:165-169 | addStyle over a style leaves `allSources` unchanged or extends it by the match's rule alone, once |
| MergedStyleRule.AddStyle | src/@tandem/html-extension/editor/browser/models/merged-style-rule.ts:163-170 | addStyle(current, match) adds at most the match's rule to `allSources`, once, at the end |
| MergedStyleRule.AddMatches | src/@tandem/html-extension/editor/browser/models/merged-style-rule.ts:173 | every source the traversal adds to `allSources` is the rule of one of its matches |
| MergedStyleRule.OwnIndexFacts | src/@tandem/html-extension/editor/browser/models/merged-style-rule.ts:163-172 | the index built from the target's own style is valid, keyed by exactly the target's declared names, with the target as every main source |
| MergedStyleRule.Rebuild | src/@tandem/html-extension/editor/browser/models/merged-style-rule.ts:159-173 | after reset, `allSources` holds only the target and the rules the traversal reported |
| MergedStyleRule.AddDeclStep | src/@tandem/html-extension/editor/browser/models/merged-style-rule.ts:165-168 | one declaration seen by addStyle keeps the invariant and every existing main source; a direct match always gives the property a main source, and so does an inherited match when the property is inherited and its camel-cased name has no main source; a property it adds is the declared one, owned by the match, and inherited when the match is |
| MergedStyleRule.AddDeclsFacts | src/@tandem/html-extension/editor/browser/models/merged-style-rule.ts:163-170 | addStyle keeps the invariant and every existing main source; a direct match gives every one of its properties a main source; every property it adds is declared by the match, owned by it, and inherited when the match is inherited; after an inherited match every inherited property it declares has a main source under its own or its camel-cased name |
| MergedStyleRule.AddMatchesFacts | src/@tandem/html-extension/editor/browser/models/merged-style-rule.ts:172-173 | visiting the traversal keeps the invariant and existing main sources; every property declared by a rule on the target itself gets a main source; every new main source declares its property, and the property is direct or inherited |
| MergedStyleRule.AddMatchesInherited | src/@tandem/html-extension/editor/browser/models/merged-style-rule.ts:163-173 | after the traversal, every inherited property declared by a rule matched on an ancestor has a main source under its own or its camel-cased name, so an inherited match records an inherited property whenever it has none yet |
| MergedStyleRule.DirectNamesIncludesOwn | src/@tandem/html-extension/editor/browser/models/merged-style-rule.ts:172 | the properties declared directly on the target include its own style's |
| MergedStyleRule.RebuildFacts | src/@tandem/html-extension/editor/browser/models/merged-style-rule.ts:151-175 | reset gives a valid index in which the target is the main source of each of its own declarations, every property declared directly on the target has a main source, every other main property is an inherited one, every main source declares its property, and every inherited property declared by a rule on an ancestor has a main source under its own or its camel-cased name |
| MergedStyleRule.Computed | src/@tandem/html-extension/editor/browser/models/merged-style-rule.ts:102-106 | each property with a main source takes that source's value; every other entry of the style is kept |
| MergedStyleRule.Uniq | src/@tandem/html-extension/editor/browser/models/merged-style-rule.ts:70 | `uniq` gives each element once and keeps exactly the same elements |
| MergedStyleRule.ValuesInOrder | src/@tandem/html-extension/editor/browser/models/merged-style-rule.ts:70 | `values` yields exactly the sources stored under the listed keys |
| MergedStyleRule.Filter | src/@tandem/html-extension/editor/browser/models/merged-style-rule.ts:73-83 | a filter keeps exactly the elements that pass the test |
| MergedStyleRule.FilterPartition | src/@tandem/html-extension/editor/browser/models/merged-style-rule.ts:73-83 | two complementary filters together hold every element exactly as often as the input does |
| MergedStyleRule.FilterDistinct | src/@tandem/html-extension/editor/browser/models/merged-style-rule.ts:73-83 | filtering a duplicate-free sequence gives a duplicate-free sequence |
| MergedStyleRule.MergedCSSStyleRule.constructor | src/@tandem/html-extension/editor/browser/models/merged-style-rule.ts:36-42 | a new merged rule for an element target has no selection, the rebuilt index and the style computed from it |
| MergedStyleRule.MergedCSSStyleRule.SetProperty | src/@tandem/html-extension/editor/browser/models/merged-style-rule.ts:85-100 | the object's fields become `SetProp` of the old ones and the invariant is kept; its frame names only the four index fields, so the selection and style stay untouched |
| MergedStyleRule.MergedCSSStyleRule.ComputeStyle | src/@tandem/html-extension/editor/browser/models/merged-style-rule.ts:102-106 | the loop writes each main property's value into the style and keeps the other entries (`Computed`); it needs only that the key list and the main map name the same properties |
| MergedStyleRule.MergedCSSStyleRule.AddDeclaration | src/@tandem/html-extension/editor/browser/models/merged-style-rule.ts:166-168 | one declaration seen by addStyle leaves the fields at `AddDecl` of the old ones, with the invariant kept |
| MergedStyleRule.MergedCSSStyleRule.AddStyleOf | src/@tandem/html-extension/editor/browser/models/merged-style-rule.ts:163-170 | the loop over a match's declarations leaves the index at `AddStyle` of the old one, with the invariant kept |
| MergedStyleRule.MergedCSSStyleRule.AddMatchesOf | src/@tandem/html-extension/editor/browser/models/merged-style-rule.ts:173 | the traversal's callback, applied to each match in order, leaves the index at `AddMatches` of the old one, with the invariant kept |
| MergedStyleRule.MergedCSSStyleRule.Reset | src/@tandem/html-extension/editor/browser/models/merged-style-rule.ts:151-175 | the index becomes `Rebuild` of the target and the traversal, valid; the style is recomputed over the old one; the selection is outside its frame and so unchanged |
| MergedStyleRule.MergedCSSStyleRule.OnDocumentEvent | src/@tandem/html-extension/editor/browser/models/merged-style-rule.ts:146-149 | an event with no mutation, or one that sets a declaration, changes nothing; any other mutation resets |
| MergedStyleRule.MergedCSSStyleRule.GetDeclarationSourceRules | src/@tandem/html-extension/editor/browser/models/merged-style-rule.ts:108-110 | the result is the list recorded under the camel-cased name (every source that set the property, in call order, as `SetProp` appends them), or empty when nobody set it; a property with a main source lists it first; every listed source is in `allSources` |
| MergedStyleRule.MergedCSSStyleRule.GetDeclarationMainSourceRule | src/@tandem/html-extension/editor/browser/models/merged-style-rule.ts:112-114 | there is a main source exactly when the camel-cased name has one; it is in `allSources` and heads the property's source list |
| MergedStyleRule.MergedCSSStyleRule.SelectSourceRule | src/@tandem/html-extension/editor/browser/models/merged-style-rule.ts:116-119 | the selection for the style name becomes the rule; other selections are kept |
| MergedStyleRule.MergedCSSStyleRule.MainSources | src/@tandem/html-extension/editor/browser/models/merged-style-rule.ts:69-71 | `mainSources` has no duplicates and holds exactly the values of the main map |
| MergedStyleRule.MergedCSSStyleRule.MatchingRules | src/@tandem/html-extension/editor/browser/models/merged-style-rule.ts:79-83 | exactly the main sources that are the target or match it |
| MergedStyleRule.MergedCSSStyleRule.InheritedRules | src/@tandem/html-extension/editor/browser/models/merged-style-rule.ts:73-77 | exactly the main sources that are neither the target nor match it |
| MergedStyleRule.MergedCSSStyleRule.RulesPartitionMainSources | src/@tandem/html-extension/editor/browser/models/merged-style-rule.ts:73-83 | matching and inherited rules are duplicate-free and together are a permutation of the main sources |
| MergedStyleRule.MergedCSSStyleRule.BestCandidates | src/@tandem/html-extension/editor/browser/models/merged-style-rule.ts:126-133 | the candidates are exactly the main sources that are elements or rules matching the target |
| MergedStyleRule.MergedCSSStyleRule.GetBestSourceRule | src/@tandem/html-extension/editor/browser/models/merged-style-rule.ts:125-144 | the result is undefined exactly when there is no candidate, and otherwise is one of the candidates |
| MergedStyleRule.MergedCSSStyleRule.GetSelectedSourceRule | src/@tandem/html-extension/editor/browser/models/merged-style-rule.ts:121-123 | the selected rule for the name wins; failing that, the property's main source; failing that, a best source rule |
| Sandbox.ModuleImporter.Import | src/@tandem/sandbox/sandbox.ts:41 | an import is recorded with its arguments and completes as the importer's n-th outcome says |
| Sandbox.ModuleImporter.Reset | src/@tandem/sandbox/sandbox.ts:51 | a reset of the importer is recorded and imports no module |
| Sandbox.Sandbox.constructor | src/@tandem/sandbox/sandbox.ts:25-29 | a new sandbox owns a fresh importer with no calls, no entry, no global and no events |
| Sandbox.Sandbox.Global | src/@tandem/sandbox/sandbox.ts:31-33 | a truthy cached global is returned without calling the factory; otherwise the factory is called once and its result, truthy or not, is cached and returned |
| Sandbox.Sandbox.BeginOpen | src/@tandem/sandbox/sandbox.ts:39-41 | the entry is recorded before the import starts, without the relative path, which goes only to the importer |
| Sandbox.Sandbox.EndOpen | src/@tandem/sandbox/sandbox.ts:41-42 | `Evaluated` is sent exactly when the import completed |
| Sandbox.Sandbox.Open | src/@tandem/sandbox/sandbox.ts:39-43 | open records the entry, imports it once with the given arguments, and then sends `Evaluated` exactly when the import completed |
| Sandbox.Sandbox.BeginReset | src/@tandem/sandbox/sandbox.ts:50-54 | the importer is reset and the global cleared; only when an entry exists is it re-imported, with no relative path |
| Sandbox.Sandbox.Reset | src/@tandem/sandbox/sandbox.ts:50-56 | reset clears the global and keeps the entry; with no entry it only resets the importer; otherwise it re-opens the entry, counting one more import, and sends `Evaluated` when that import completes |
| Sandbox.Sandbox.OnImporterChange | src/@tandem/sandbox/sandbox.ts:45-48 | an importer change resets the sandbox, counting one more import exactly when an entry exists, and re-broadcasts the same action; that action is always sent before the `Evaluated` of the re-open |
| Sandbox.ReadGlobalTwice | src/@tandem/sandbox/sandbox.ts:31-33 | two reads agree and call the factory at most once when the value is truthy; a falsy value is not kept, so the factory is called on each read |
| Sandbox.GlobalAfterReset | src/@tandem/sandbox/sandbox.ts:31-56 | after a reset, the next read of the global calls the factory again and caches that new value |

## Left out

- Parsing with parse5 is not modelled. `load` starts from the parsed tree (`HtmlNode`), with each node's location as the parser reports it.
- The source-map v3 encoding (`toStringWithSourceMap`, mappings, `toJSON`) is not modelled. The result carries the tagged tree that the map is built from.
- JSON serialisation of the sub-loader's map, and base64 encoding, are not modelled. The map arrives as its JSON text, and base64 is a parameter.
- HtmlLoader.Load: the imports are claimed only as a multiset of the resolutions, because the source pushes each uri when its resolution settles under `Promise.all`, so their order depends on timing. The model lists them in document order.
- HtmlLoader.Load: when several references or sub-loads fail, the model reports the first in document order. The source rejects with whichever fails first in time. Attributes are always awaited before the body, in both.
- The dependency-injection lookups (the strategy, the text content type provider, the loader factory registry, the created sub-loader) are parameters of `LoaderEnv`.
- The unused `hasProtocol` helper and the dependency's `hash` have no effect and are not modelled.
- The value of `HTML_MIME_TYPE` is defined outside these files. The model takes it to be `text/html`.
- The merged rule's `graphics` getter and its write-back, `dispose`, and the observe/unobserve of the owner document are not modelled. They are editor wiring with no effect on the bookkeeping.
- `selectedStyleRule` and `selectedStyleProperty` are bindable properties that nothing in the class reads, so they are not modelled.
- The notification that `selectSourceRule` sends (a `PropertyMutation`) is not modelled.
- `camelCase`, `matchesElement`, `isInheritedCSSStyleProperty` and the inherited-rule traversal `eachInheritedMatchingStyleRule` are parameters. The traversal is the sequence of (element, matching source) pairs it visits, given to `Reset`. The document whose mutations trigger a reset is the caller's.
- The `value` argument of `setProperty` is not used by the source, and the model omits it.
- Style sources are values compared by their contents and ids, where the source compares object identity. A rule changing under the object is seen only at the next reset.
- Plain-object keys are modelled as a map with an explicit insertion order. Keys that look like integers, which JavaScript enumerates first, and keys inherited from `Object.prototype` are not modelled. No CSS property name is either.
- MergedStyleRule.MergedCSSStyleRule.GetBestSourceRule: the source sorts the candidates with a comparator that is not a consistent order, so which candidate comes first depends on the engine's sort. The model proves only that the result is one of the candidates, and undefined when there are none.
- MergedStyleRule.MergedCSSStyleRule.GetSelectedSourceRule: it inherits the same nondeterministic last step.
- The module importer's own behaviour (resolving, loading and evaluating modules) is not modelled. It is a collaborator that records the calls made on it, and whether each import completes is a parameter.
- Observable notifications are modelled as an append-only event log.
- The factory default `() => {}` is the factory that always returns `Falsy`.
- `_shouldResetAgain` is declared but never used, so no coalescing of resets is modelled.
- The rejections of a re-open are not observed by `onImporterChange` in the source. In the model a rejection only means that `Evaluated` is not sent.
- Interleavings of several pending opens are not modelled: each modelled `open` runs to completion, except inside `onImporterChange`.
