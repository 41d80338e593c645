/**
 * The merged style of one element (MergedCSSStyleRule): which style source
 * declares each CSS property for the element, rebuilt from the element's own
 * style and the rules it matches or inherits from.
 *
 * The browser-side collaborators are parameters gathered in CssEnv: whether a
 * rule matches the target element, whether a property is inherited, and the
 * camel-casing of property names. The traversal of inherited matching rules
 * is given to Reset as the sequence of (current element, matching source)
 * pairs it visits.
 */
module MergedStyleRule {
  import opened Common

  datatype Decl = Decl(name: string, value: string)

  predicate DistinctNames(decls: seq<Decl>)
  {
    forall i, j :: 0 <= i < j < |decls| ==> decls[i].name != decls[j].name
  }

  /** A style: property declarations in declaration order, one per name. */
  type Style = decls: seq<Decl> | DistinctNames(decls)

  /** A style source: an element (its inline style) or a CSS rule. */
  datatype Source =
    | ElementSource(id: nat, style: Style)
    | RuleSource(id: nat, selector: string, style: Style)

  /** One visit of the inherited-rule traversal: the element reached and a source matching it. */
  datatype Match = Match(current: Source, rule: Source)

  datatype MutationType = SetDeclaration | OtherMutation(kind: string)

  /**
   * - matches(s): `s.matchesElement(target)`;
   * - isInherited(p): whether CSS property p is inherited;
   * - camelCase: the property-name normalisation used by lookups.
   */
  datatype CssEnv = CssEnv(
    matches: Source -> bool,
    isInherited: string -> bool,
    camelCase: string -> string)

  /** The value a style gives to a property, if it declares it. */
  function ValueOf(decls: seq<Decl>, name: string): (r: Option<string>)
    ensures r.Some? <==> name in Names(decls)
    ensures r.Some? ==> Decl(name, r.value) in decls
    decreases decls
  {
    if decls == [] then None
    else if decls[0].name == name then Some(decls[0].value)
    else ValueOf(decls[1..], name)
  }

  /** In a style, whose names are distinct, the value found is the declared one. */
  lemma ValueOfDeclared(style: Style, d: Decl)
    requires d in style
    ensures ValueOf(style, d.name) == Some(d.value)
  {
    assert d.name in Names(style);
    var v := ValueOf(style, d.name).value;
    var i :| 0 <= i < |style| && style[i] == d;
    var j :| 0 <= j < |style| && style[j] == Decl(d.name, v);
    assert i == j;
  }

  function Names(decls: seq<Decl>): set<string>
  {
    set d | d in decls :: d.name
  }

  predicate Distinct<T(==)>(s: seq<T>)
  {
    forall i, j :: 0 <= i < j < |s| ==> s[i] != s[j]
  }

  // ---------------------------------------------------------------------------
  // The bookkeeping as a value

  /**
   * The three structures the rule keeps:
   * - main: property name -> the first source that set it, with mainKeys the
   *   order in which those names were first set (the key order of `_main`);
   * - sources: property name -> every source that set it, in call order;
   * - all: every source that set anything, each once, in first-seen order.
   */
  datatype Index = Index(
    mainKeys: seq<string>,
    main: map<string, Source>,
    sources: map<string, seq<Source>>,
    all: seq<Source>)

  const EmptyIndex := Index([], map[], map[], [])

  ghost predicate IndexValid(ix: Index)
  {
    && Distinct(ix.mainKeys)
    && (forall k :: k in ix.mainKeys <==> k in ix.main)
    && ix.sources.Keys == ix.main.Keys
    && (forall k :: k in ix.sources ==> |ix.sources[k]| > 0 && ix.sources[k][0] == ix.main[k])
    && (forall k, i :: k in ix.sources && 0 <= i < |ix.sources[k]| ==> ix.sources[k][i] in ix.all)
    && Distinct(ix.all)
  }

  /** setProperty(source, name): the first call for a name makes the source its
      main source; every call appends the source to the name's list; the
      source joins `all` unless it is already there. */
  function SetProp(ix: Index, source: Source, name: string): (r: Index)
    ensures IndexValid(ix) ==> r.main.Keys == ix.main.Keys + {name}
    ensures name in ix.sources ==> r.main == ix.main && r.mainKeys == ix.mainKeys
    ensures name !in ix.sources && name !in ix.main ==>
              r.main == ix.main[name := source] && r.mainKeys == ix.mainKeys + [name]
    ensures r.sources == ix.sources[name := (if name in ix.sources then ix.sources[name] else []) + [source]]
    ensures source in ix.all ==> r.all == ix.all
    ensures source !in ix.all ==> r.all == ix.all + [source]
  {
    var ix1 :=
      if name in ix.sources then ix
      else Index(if name in ix.main then ix.mainKeys else ix.mainKeys + [name],
                 ix.main[name := source], ix.sources[name := []], ix.all);
    var all := if source in ix1.all then ix1.all else ix1.all + [source];
    Index(ix1.mainKeys, ix1.main, ix1.sources[name := ix1.sources[name] + [source]], all)
  }

  lemma SetPropValid(ix: Index, source: Source, name: string)
    requires IndexValid(ix)
    ensures IndexValid(SetProp(ix, source, name))
  {
    SetPropKeys(ix, source, name);
    SetPropLists(ix, source, name);
    SetPropAll(ix, source, name);
  }

  lemma SetPropKeys(ix: Index, source: Source, name: string)
    requires IndexValid(ix)
    ensures var r := SetProp(ix, source, name);
      && Distinct(r.mainKeys)
      && (forall k :: k in r.mainKeys <==> k in r.main)
      && r.sources.Keys == r.main.Keys
  {
    if name !in ix.sources {
      DistinctSnoc(ix.mainKeys, name);
    }
  }

  lemma SetPropLists(ix: Index, source: Source, name: string)
    requires IndexValid(ix)
    ensures var r := SetProp(ix, source, name);
      forall k :: k in r.sources ==> |r.sources[k]| > 0 && r.sources[k][0] == r.main[k]
  {
    var r := SetProp(ix, source, name);
    forall k | k in r.sources
      ensures |r.sources[k]| > 0 && r.sources[k][0] == r.main[k]
    {
      if k == name && name in ix.sources {
        assert r.sources[k] == ix.sources[k] + [source];
      }
    }
  }

  lemma SetPropAll(ix: Index, source: Source, name: string)
    requires IndexValid(ix)
    ensures var r := SetProp(ix, source, name);
      && (forall k, i :: k in r.sources && 0 <= i < |r.sources[k]| ==> r.sources[k][i] in r.all)
      && Distinct(r.all)
  {
    var r := SetProp(ix, source, name);
    var list := if name in ix.sources then ix.sources[name] else [];
    if source !in ix.all {
      DistinctSnoc(ix.all, source);
    }
    assert forall x :: x in ix.all ==> x in r.all;
    forall k, i | k in r.sources && 0 <= i < |r.sources[k]|
      ensures r.sources[k][i] in r.all
    {
      if k == name {
        assert r.sources[k] == list + [source];
        if i < |list| { assert r.sources[k][i] == list[i]; }
      }
    }
  }

  lemma DistinctSnoc<T>(s: seq<T>, x: T)
    requires Distinct(s) && x !in s
    ensures Distinct(s + [x])
  {
    forall i, j | 0 <= i < j < |s + [x]| ensures (s + [x])[i] != (s + [x])[j] {
      if j == |s| { assert (s + [x])[i] == s[i]; }
    }
  }

  /** One declaration seen by addStyle: an inherited match contributes only
      inherited properties that have no main source yet. */
  function AddDecl(ix: Index, env: CssEnv, inherited: bool, rule: Source, name: string): (r: Index)
    ensures inherited && (!env.isInherited(name) || env.camelCase(name) in ix.main) ==> r == ix
    ensures inherited && env.isInherited(name) && env.camelCase(name) !in ix.main ==> r == SetProp(ix, rule, name)
    ensures !inherited ==> r == SetProp(ix, rule, name)
    ensures !inherited ==> name in r.sources
    ensures r.sources.Keys <= ix.sources.Keys + {name}
    ensures r.all == ix.all || r.all == ix.all + [rule]
    ensures rule in ix.all ==> r.all == ix.all
  {
    if !inherited || (env.isInherited(name) && env.camelCase(name) !in ix.main) then SetProp(ix, rule, name) else ix
  }

  /** addStyle over the first |decls| declarations of a source's style. */
  function AddDecls(ix: Index, env: CssEnv, inherited: bool, rule: Source, decls: seq<Decl>): (r: Index)
    ensures r.all == ix.all || r.all == ix.all + [rule]
    decreases |decls|
  {
    if decls == [] then ix
    else AddDecl(AddDecls(ix, env, inherited, rule, decls[..|decls| - 1]), env, inherited, rule, decls[|decls| - 1].name)
  }

  /** addStyle over one more declaration is one more step. */
  lemma AddDeclsUnfold(ix: Index, env: CssEnv, inherited: bool, rule: Source, decls: seq<Decl>, i: nat)
    requires i < |decls|
    ensures AddDecls(ix, env, inherited, rule, decls[..i + 1])
         == AddDecl(AddDecls(ix, env, inherited, rule, decls[..i]), env, inherited, rule, decls[i].name)
  {
    assert decls[..i + 1][..i] == decls[..i];
  }

  /** addStyle(current, match): inherited exactly when current is not the target. */
  function AddStyle(ix: Index, env: CssEnv, target: Source, m: Match): (r: Index)
    ensures r.all == ix.all || r.all == ix.all + [m.rule]
  {
    AddDecls(ix, env, m.current != target, m.rule, m.rule.style)
  }

  function AddMatches(ix: Index, env: CssEnv, target: Source, ms: seq<Match>): (r: Index)
    ensures forall x :: x in r.all && x !in ix.all ==> exists i :: 0 <= i < |ms| && ms[i].rule == x
    decreases |ms|
  {
    if ms == [] then ix
    else
      assert forall i :: 0 <= i < |ms| - 1 ==> ms[..|ms| - 1][i] == ms[i];
      AddStyle(AddMatches(ix, env, target, ms[..|ms| - 1]), env, target, ms[|ms| - 1])
  }

  /** The traversal with one more match is one more addStyle. */
  lemma AddMatchesUnfold(ix: Index, env: CssEnv, target: Source, ms: seq<Match>, i: nat)
    requires i < |ms|
    ensures AddMatches(ix, env, target, ms[..i + 1]) == AddStyle(AddMatches(ix, env, target, ms[..i]), env, target, ms[i])
  {
    assert ms[..i + 1][..i] == ms[..i];
  }

  /** What reset builds: the target's own style, then each match of the traversal. */
  function Rebuild(env: CssEnv, target: Source, ms: seq<Match>): (r: Index)
    ensures forall x :: x in r.all ==> x == target || exists i :: 0 <= i < |ms| && ms[i].rule == x
  {
    AddMatches(AddStyle(EmptyIndex, env, target, Match(target, target)), env, target, ms)
  }

  /** Every main source of `ix` is still the main source of its property in `r`. */
  predicate MainExtends(ix: Index, r: Index)
  {
    forall k :: k in ix.main ==> k in r.main && r.main[k] == ix.main[k]
  }

  /** The properties declared by the target's own style and by every match the
      traversal reports on the target itself (not on an ancestor). */
  function DirectNames(target: Source, ms: seq<Match>): set<string>
    decreases |ms|
  {
    if ms == [] then Names(target.style)
    else
      var last := ms[|ms| - 1];
      DirectNames(target, ms[..|ms| - 1]) + (if last.current == target then Names(last.rule.style) else {})
  }

  lemma NamesSnoc(decls: seq<Decl>)
    requires decls != []
    ensures Names(decls) == Names(decls[..|decls| - 1]) + {decls[|decls| - 1].name}
  {
    var init, last := decls[..|decls| - 1], decls[|decls| - 1];
    assert decls == init + [last];
    assert forall d :: d in decls <==> d in init || d == last;
  }

  /** addStyle over some declarations keeps the index valid and every existing
      main source; each property it adds is one of those declarations, has the
      style's source as its main source, and is an inherited property when the
      match is inherited; a non-inherited match adds all of its properties, and
      an inherited one each inherited property whose camel-cased name has no
      main source yet. */
  lemma AddDeclStep(ix: Index, env: CssEnv, inherited: bool, rule: Source, name: string)
    requires IndexValid(ix)
    ensures IndexValid(AddDecl(ix, env, inherited, rule, name))
    ensures MainExtends(ix, AddDecl(ix, env, inherited, rule, name))
    ensures !inherited ==> name in AddDecl(ix, env, inherited, rule, name).main
    ensures inherited && env.isInherited(name) && env.camelCase(name) !in ix.main ==> name in AddDecl(ix, env, inherited, rule, name).main
    ensures forall k :: k in AddDecl(ix, env, inherited, rule, name).main && k !in ix.main ==>
              AddDecl(ix, env, inherited, rule, name).main[k] == rule && k == name && (inherited ==> env.isInherited(k))
  {
    if !inherited || (env.isInherited(name) && env.camelCase(name) !in ix.main) {
      SetPropValid(ix, rule, name);
    }
  }

  lemma {:induction false} AddDeclsFacts(ix: Index, env: CssEnv, inherited: bool, rule: Source, decls: seq<Decl>)
    requires IndexValid(ix)
    ensures IndexValid(AddDecls(ix, env, inherited, rule, decls))
    ensures MainExtends(ix, AddDecls(ix, env, inherited, rule, decls))
    ensures !inherited ==> Names(decls) <= AddDecls(ix, env, inherited, rule, decls).main.Keys
    ensures forall k :: k in AddDecls(ix, env, inherited, rule, decls).main && k !in ix.main ==>
              && AddDecls(ix, env, inherited, rule, decls).main[k] == rule
              && k in Names(decls)
              && (inherited ==> env.isInherited(k))
    ensures inherited ==> forall n :: n in Names(decls) && env.isInherited(n) ==>
              n in AddDecls(ix, env, inherited, rule, decls).main || env.camelCase(n) in AddDecls(ix, env, inherited, rule, decls).main
    decreases |decls|
  {
    if decls != [] {
      var init, last := decls[..|decls| - 1], decls[|decls| - 1];
      AddDeclsFacts(ix, env, inherited, rule, init);
      var mid := AddDecls(ix, env, inherited, rule, init);
      var r := AddDecl(mid, env, inherited, rule, last.name);
      assert r == AddDecls(ix, env, inherited, rule, decls);
      AddDeclStep(mid, env, inherited, rule, last.name);
      NamesSnoc(decls);
      forall k | k in r.main && k !in ix.main
        ensures r.main[k] == rule && k in Names(decls) && (inherited ==> env.isInherited(k))
      {
        if k in mid.main {
          assert r.main[k] == mid.main[k];
        }
      }
      if inherited {
        forall n | n in Names(decls) && env.isInherited(n)
          ensures n in r.main || env.camelCase(n) in r.main
        {
          if n != last.name {
            assert n in Names(init);
          }
        }
      }
    }
  }

  lemma {:induction false} AddMatchesFacts(ix: Index, env: CssEnv, target: Source, ms: seq<Match>)
    requires IndexValid(ix)
    ensures IndexValid(AddMatches(ix, env, target, ms))
    ensures MainExtends(ix, AddMatches(ix, env, target, ms))
    ensures DirectNames(target, ms) - Names(target.style) <= AddMatches(ix, env, target, ms).main.Keys
    ensures forall k :: k in AddMatches(ix, env, target, ms).main && k !in ix.main ==>
              && k in Names(AddMatches(ix, env, target, ms).main[k].style)
              && (k in DirectNames(target, ms) || env.isInherited(k))
    decreases |ms|
  {
    if ms != [] {
      var init, last := ms[..|ms| - 1], ms[|ms| - 1];
      AddMatchesFacts(ix, env, target, init);
      var mid := AddMatches(ix, env, target, init);
      AddDeclsFacts(mid, env, last.current != target, last.rule, last.rule.style);
    }
  }

  /** Visiting the traversal gives every inherited property declared by a rule
      on an ancestor a main source, under its own or its camel-cased name. */
  lemma {:induction false} AddMatchesInherited(ix: Index, env: CssEnv, target: Source, ms: seq<Match>)
    requires IndexValid(ix)
    ensures forall i, n :: 0 <= i < |ms| && ms[i].current != target && n in Names(ms[i].rule.style) && env.isInherited(n) ==>
              n in AddMatches(ix, env, target, ms).main || env.camelCase(n) in AddMatches(ix, env, target, ms).main
    decreases |ms|
  {
    if ms != [] {
      var init, last := ms[..|ms| - 1], ms[|ms| - 1];
      AddMatchesInherited(ix, env, target, init);
      AddMatchesFacts(ix, env, target, init);
      var mid := AddMatches(ix, env, target, init);
      AddDeclsFacts(mid, env, last.current != target, last.rule, last.rule.style);
      var r := AddMatches(ix, env, target, ms);
      assert r == AddDecls(mid, env, last.current != target, last.rule, last.rule.style);
      forall i, n | 0 <= i < |ms| && ms[i].current != target && n in Names(ms[i].rule.style) && env.isInherited(n)
        ensures n in r.main || env.camelCase(n) in r.main
      {
        if i < |ms| - 1 {
          assert init[i] == ms[i];
        }
      }
    }
  }

  /** What reset establishes: a valid index in which the target is the main
      source of every property it declares itself, every property declared
      directly on the target (by its style or a rule matching it) has a main
      source, every other property with a main source is an inherited one, and
      every main source declares the property it is main for; and every
      inherited property an ancestor's rule declares ends up with a main source,
      under its own name or its camel-cased one. */
  lemma RebuildFacts(env: CssEnv, target: Source, ms: seq<Match>)
    ensures IndexValid(Rebuild(env, target, ms))
    ensures forall d :: d in target.style ==> d.name in Rebuild(env, target, ms).main && Rebuild(env, target, ms).main[d.name] == target
    ensures DirectNames(target, ms) <= Rebuild(env, target, ms).main.Keys
    ensures forall k :: k in Rebuild(env, target, ms).main ==> k in DirectNames(target, ms) || env.isInherited(k)
    ensures forall k :: k in Rebuild(env, target, ms).main ==> k in Names(Rebuild(env, target, ms).main[k].style)
    ensures forall i, d :: 0 <= i < |ms| && ms[i].current != target && d in ms[i].rule.style && env.isInherited(d.name) ==>
              d.name in Rebuild(env, target, ms).main || env.camelCase(d.name) in Rebuild(env, target, ms).main
  {
    var own := AddDecls(EmptyIndex, env, false, target, target.style);
    var r := Rebuild(env, target, ms);
    assert r == AddMatches(own, env, target, ms);
    OwnIndexFacts(env, target);
    AddMatchesFacts(own, env, target, ms);
    AddMatchesInherited(own, env, target, ms);
    DirectNamesIncludesOwn(target, ms);
    assert forall i, d :: 0 <= i < |ms| && d in ms[i].rule.style ==> d.name in Names(ms[i].rule.style);
  }

  /** The index built from the target's own style alone: valid, keyed by the
      target's declared names, with the target as every main source. */
  lemma OwnIndexFacts(env: CssEnv, target: Source)
    ensures var own := AddDecls(EmptyIndex, env, false, target, target.style);
            && IndexValid(own)
            && own.main.Keys == Names(target.style)
            && forall k :: k in own.main ==> own.main[k] == target
  {
    var own := AddDecls(EmptyIndex, env, false, target, target.style);
    AddDeclsFacts(EmptyIndex, env, false, target, target.style);
    assert forall k :: k in own.main ==> k !in EmptyIndex.main;
  }

  lemma {:induction false} DirectNamesIncludesOwn(target: Source, ms: seq<Match>)
    ensures Names(target.style) <= DirectNames(target, ms)
    decreases |ms|
  {
    if ms != [] {
      DirectNamesIncludesOwn(target, ms[..|ms| - 1]);
    }
  }

  /** The computed style after computeStyle: every property with a main source
      takes that source's value; other entries are kept. */
  function Computed(style: map<string, Option<string>>, ix: Index): (r: map<string, Option<string>>)
    ensures r.Keys == style.Keys + ix.main.Keys
    ensures forall k :: k in ix.main ==> r[k] == ValueOf(ix.main[k].style, k)
    ensures forall k :: k in style && k !in ix.main ==> r[k] == style[k]
  {
    map k | k in style.Keys + ix.main.Keys :: if k in ix.main then ValueOf(ix.main[k].style, k) else style[k]
  }

  // ---------------------------------------------------------------------------
  // Sequences of sources

  /** Lodash `uniq`: first occurrences, in order. */
  function Uniq(s: seq<Source>): (r: seq<Source>)
    ensures Distinct(r)
    ensures forall x :: x in r <==> x in s
    decreases |s|
  {
    if s == [] then []
    else
      var u := Uniq(s[..|s| - 1]);
      if s[|s| - 1] in u then u else u + [s[|s| - 1]]
  }

  /** The values of a map in key order (`values` of a JavaScript object). */
  function ValuesInOrder(keys: seq<string>, m: map<string, Source>): (r: seq<Source>)
    ensures forall x :: x in r <==> exists i :: 0 <= i < |keys| && keys[i] in m && m[keys[i]] == x
    decreases keys
  {
    if keys == [] then []
    else (if keys[0] in m then [m[keys[0]]] else []) + ValuesInOrder(keys[1..], m)
  }

  function Filter(s: seq<Source>, keep: Source -> bool): (r: seq<Source>)
    ensures forall x :: x in r ==> x in s && keep(x)
    ensures forall x :: x in s && keep(x) ==> x in r
    decreases s
  {
    if s == [] then [] else (if keep(s[0]) then [s[0]] else []) + Filter(s[1..], keep)
  }

  /** Two complementary filters split a sequence: every element lands in exactly one. */
  lemma {:induction false} FilterPartition(s: seq<Source>, keep: Source -> bool, drop: Source -> bool)
    requires forall x :: drop(x) == !keep(x)
    ensures multiset(Filter(s, keep)) + multiset(Filter(s, drop)) == multiset(s)
    decreases s
  {
    if s != [] {
      FilterPartition(s[1..], keep, drop);
      assert s == [s[0]] + s[1..];
    }
  }

  /** A filter over sources that keeps its argument's order and distinctness. */
  lemma {:induction false} FilterDistinct(s: seq<Source>, keep: Source -> bool)
    requires Distinct(s)
    ensures Distinct(Filter(s, keep))
    decreases s
  {
    if s != [] {
      FilterDistinct(s[1..], keep);
      var rest := Filter(s[1..], keep);
      if keep(s[0]) {
        assert s[0] !in rest;
        var r := [s[0]] + rest;
        forall i, j | 0 <= i < j < |r| ensures r[i] != r[j] {
          if i == 0 { assert r[j] in rest; } else { assert r[i] == rest[i - 1] && r[j] == rest[j - 1]; }
        }
      }
    }
  }

  // ---------------------------------------------------------------------------
  // The object

  class MergedCSSStyleRule {
    const target: Source
    const env: CssEnv

    var mainKeys: seq<string>
    var main: map<string, Source>
    var sources: map<string, seq<Source>>
    var allSources: seq<Source>
    var selectedSourceRule: map<string, Source>
    /** The merged style, property name -> value (None where a source gives none). */
    var style: map<string, Option<string>>

    ghost function State(): Index
      reads this
    {
      Index(mainKeys, main, sources, allSources)
    }

    ghost predicate Valid()
      reads this
    {
      IndexValid(State())
    }

    /** The constructor starts with no selection and an empty style, then
        resets; the target is always an element. */
    constructor (target: Source, env: CssEnv, ms: seq<Match>)
      requires target.ElementSource?
      ensures this.target == target && this.env == env
      ensures Valid() && State() == Rebuild(env, target, ms)
      ensures selectedSourceRule == map[]
      ensures style == Computed(map[], State())
    {
      this.target := target;
      this.env := env;
      selectedSourceRule := map[];
      style := map[];
      mainKeys, main, sources, allSources := [], map[], map[], [];
      new;
      Reset(ms);
      assert style == Computed(map[], State());
    }

    method SetProperty(source: Source, name: string)
      requires Valid()
      modifies this`mainKeys, this`main, this`sources, this`allSources
      ensures State() == SetProp(old(State()), source, name)
      ensures Valid()
    {
      ghost var next := SetProp(State(), source, name);
      if name !in sources {
        sources := sources[name := []];
        if name !in main {
          mainKeys := mainKeys + [name];
        }
        main := main[name := source];
      }
      if source !in allSources {
        allSources := allSources + [source];
      }
      sources := sources[name := sources[name] + [source]];
      assert mainKeys == next.mainKeys && main == next.main;
      assert sources == next.sources && allSources == next.all;
      assert State() == next;
      SetPropValid(old(State()), source, name);
    }

    /** Writes every property's main-source value into the merged style, in
        the key order of the main map; other entries of the style are kept. */
    method ComputeStyle()
      requires forall k :: k in mainKeys <==> k in main
      modifies this`style
      ensures style == Computed(old(style), State())
    {
      var keys, mains := mainKeys, main;
      ghost var done: set<string> := {};
      var i := 0;
      while i < |keys|
        invariant 0 <= i <= |keys|
        invariant forall k :: k in done <==> k in keys[..i]
        invariant style.Keys == old(style).Keys + done
        invariant forall k :: k in done ==> k in mains && style[k] == ValueOf(mains[k].style, k)
        invariant forall k :: k in old(style) && k !in done ==> style[k] == old(style)[k]
      {
        var k := keys[i];
        style := style[k := ValueOf(mains[k].style, k)];
        done := done + {k};
        assert keys[..i + 1] == keys[..i] + [k];
        i := i + 1;
      }
      assert keys[..i] == keys;
      assert done == mains.Keys;
    }

    /** One declaration seen by addStyle: set unless the match is inherited and
        the property is not inherited or already has a main source. */
    method AddDeclaration(inherited: bool, rule: Source, name: string)
      requires Valid()
      modifies this`mainKeys, this`main, this`sources, this`allSources
      ensures Valid() && State() == AddDecl(old(State()), env, inherited, rule, name)
    {
      if !inherited || (env.isInherited(name) && GetDeclarationMainSourceRule(name).None?) {
        SetProperty(rule, name);
      }
    }

    /** addStyle(current, match) as the reset loop runs it. */
    method AddStyleOf(m: Match)
      requires Valid()
      modifies this`mainKeys, this`main, this`sources, this`allSources
      ensures Valid() && State() == AddStyle(old(State()), env, target, m)
    {
      var inherited := m.current != target;
      var decls := m.rule.style;
      var i := 0;
      while i < |decls|
        invariant 0 <= i <= |decls|
        invariant Valid()
        invariant State() == AddDecls(old(State()), env, inherited, m.rule, decls[..i])
      {
        AddDeclaration(inherited, m.rule, decls[i].name);
        AddDeclsUnfold(old(State()), env, inherited, m.rule, decls, i);
        i := i + 1;
      }
      assert decls[..i] == decls;
    }

    /** The traversal's matches, each through addStyle, in the order visited. */
    method AddMatchesOf(ms: seq<Match>)
      requires Valid()
      modifies this`mainKeys, this`main, this`sources, this`allSources
      ensures Valid() && State() == AddMatches(old(State()), env, target, ms)
    {
      var i := 0;
      while i < |ms|
        invariant 0 <= i <= |ms|
        invariant Valid()
        invariant State() == AddMatches(old(State()), env, target, ms[..i])
      {
        AddStyleOf(ms[i]);
        AddMatchesUnfold(old(State()), env, target, ms, i);
        i := i + 1;
      }
      assert ms[..i] == ms;
    }

    /** reset: empties the three structures, adds the target's own style, then
        every match of the traversal, and recomputes the merged style. */
    method Reset(ms: seq<Match>)
      modifies this`mainKeys, this`main, this`sources, this`allSources, this`style
      ensures Valid() && State() == Rebuild(env, target, ms)
      ensures style == Computed(old(style), State())
    {
      mainKeys, main, sources, allSources := [], map[], map[], [];
      AddStyleOf(Match(target, target));
      AddMatchesOf(ms);
      ComputeStyle();
    }

    /** _onDocumentEvent: no mutation, or a declaration being set, changes nothing;
        any other mutation resets against the traversal `ms` of the current document. */
    method OnDocumentEvent(mutation: Option<MutationType>, ms: seq<Match>)
      modifies this
      ensures mutation.None? || mutation.value == SetDeclaration ==> unchanged(this)
      ensures mutation.Some? && mutation.value != SetDeclaration ==>
                Valid() && State() == Rebuild(env, target, ms) &&
                style == Computed(old(style), State()) && selectedSourceRule == old(selectedSourceRule)
    {
      if mutation.None? || mutation.value == SetDeclaration {
        return;
      }
      Reset(ms);
    }

    /** The sources that set a property, looked up by its camel-cased name;
        empty for a property nobody set. */
    function GetDeclarationSourceRules(name: string): (r: seq<Source>)
      reads this
      ensures env.camelCase(name) !in sources ==> r == []
      ensures env.camelCase(name) in sources ==> r == sources[env.camelCase(name)]
      ensures Valid() && env.camelCase(name) in main ==> |r| > 0 && r[0] == main[env.camelCase(name)]
      ensures Valid() ==> forall i :: 0 <= i < |r| ==> r[i] in allSources
    {
      var key := env.camelCase(name);
      if key in sources then sources[key] else []
    }

    /** The main source of a property, looked up by its camel-cased name. */
    function GetDeclarationMainSourceRule(name: string): (r: Option<Source>)
      reads this
      ensures r.Some? <==> env.camelCase(name) in main
      ensures Valid() && r.Some? ==> r.value in allSources && r.value == GetDeclarationSourceRules(name)[0]
    {
      var key := env.camelCase(name);
      if key in main then Some(main[key]) else None
    }

    method SelectSourceRule(rule: Source, styleName: string)
      modifies this`selectedSourceRule
      ensures selectedSourceRule == old(selectedSourceRule)[styleName := rule]
    {
      selectedSourceRule := selectedSourceRule[styleName := rule];
    }

    /** uniq(values(_main)): each main source once, in main-key order. */
    function MainSources(): (r: seq<Source>)
      reads this
      ensures Distinct(r)
      ensures Valid() ==> forall x :: x in r <==> x in main.Values
    {
      var r := Uniq(ValuesInOrder(mainKeys, main));
      assert Valid() ==> forall x :: x in main.Values ==> x in ValuesInOrder(mainKeys, main) by {
        if Valid() {
          forall x | x in main.Values ensures x in ValuesInOrder(mainKeys, main) {
            var k :| k in main && main[k] == x;
            var i :| 0 <= i < |mainKeys| && mainKeys[i] == k;
          }
        }
      }
      r
    }

    predicate IsMatching(s: Source)
    {
      s == target || env.matches(s)
    }

    /** The main sources that are the target or match it. */
    function MatchingRules(): (r: seq<Source>)
      reads this
      ensures forall x :: x in r <==> x in MainSources() && IsMatching(x)
    {
      Filter(MainSources(), s => IsMatching(s))
    }

    /** The main sources that neither are the target nor match it. */
    function InheritedRules(): (r: seq<Source>)
      reads this
      ensures forall x :: x in r <==> x in MainSources() && !IsMatching(x)
    {
      Filter(MainSources(), s => s != target && !env.matches(s))
    }

    /** matchingRules and inheritedRules split mainSources between them. */
    lemma RulesPartitionMainSources()
      ensures multiset(MatchingRules()) + multiset(InheritedRules()) == multiset(MainSources())
      ensures Distinct(MatchingRules()) && Distinct(InheritedRules())
    {
      FilterPartition(MainSources(), s => IsMatching(s), s => s != target && !env.matches(s));
      FilterDistinct(MainSources(), s => IsMatching(s));
      FilterDistinct(MainSources(), s => s != target && !env.matches(s));
    }

    /** The candidates of getBestSourceRule: main sources that are elements, or
        rules that match the target. */
    function BestCandidates(): (r: seq<Source>)
      reads this
      ensures forall x :: x in r <==> x in MainSources() && (x.ElementSource? || env.matches(x))
    {
      Filter(MainSources(), (s: Source) => s.ElementSource? || env.matches(s))
    }

    /** getBestSourceRule: the first candidate after a sort whose order depends
        on the engine; the model chooses any candidate. */
    method GetBestSourceRule() returns (r: Option<Source>)
      ensures r.None? <==> BestCandidates() == []
      ensures r.Some? ==> r.value in BestCandidates()
    {
      var candidates := BestCandidates();
      if candidates == [] {
        r := None;
      } else {
        var i :| 0 <= i < |candidates|;
        r := Some(candidates[i]);
      }
    }

    /** getSelectedSourceRule: the selected rule for the style name, else the
        property's main source, else the best source rule. */
    method GetSelectedSourceRule(styleName: string) returns (r: Option<Source>)
      ensures styleName in selectedSourceRule ==> r == Some(selectedSourceRule[styleName])
      ensures styleName !in selectedSourceRule && GetDeclarationMainSourceRule(styleName).Some? ==>
                r == GetDeclarationMainSourceRule(styleName)
      ensures styleName !in selectedSourceRule && GetDeclarationMainSourceRule(styleName).None? ==>
                (r.None? <==> BestCandidates() == []) && (r.Some? ==> r.value in BestCandidates())
    {
      if styleName in selectedSourceRule {
        r := Some(selectedSourceRule[styleName]);
      } else {
        r := GetDeclarationMainSourceRule(styleName);
        if r.None? {
          r := GetBestSourceRule();
        }
      }
    }
  }
}
