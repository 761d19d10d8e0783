// The public API document (src/api_docs.rs): commercial paths, and exactly the components their
// references reach.
module ApiDocs {
  import opened Wrappers
  import opened Json

  const COMPONENTS: string := "#/components/"
  const SECURITY: string := "securitySchemes"

  // The reference an object carries itself.
  function OwnRef(fields: seq<Field>): set<string> {
    var own := Lookup(fields, "$ref");
    if own.Some? && own.value.Text? && COMPONENTS <= own.value.text then {own.value.text} else {}
  }

  function Refs(v: Value): set<string>
    decreases v, 0
  {
    match v
    case Object(fields) => OwnRef(fields) + FieldsRefs(fields)
    case Array(items) => ItemsRefs(items)
    case _ => {}
  }

  function FieldsRefs(fields: seq<Field>): set<string>
    decreases fields
  {
    if fields == [] then {} else Refs(fields[0].value) + FieldsRefs(fields[1..])
  }

  function ItemsRefs(items: seq<Value>): set<string>
    decreases items
  {
    if items == [] then {} else Refs(items[0]) + ItemsRefs(items[1..])
  }

  // The set the walk fills in place.
  class Found {
    var refs: set<string>

    constructor ()
      ensures refs == {}
    {
      refs := {};
    }

    method Collect(v: Value)
      modifies this
      ensures refs == old(refs) + Refs(v)
      decreases v, 0
    {
      match v
      case Object(fields) =>
        var own := Lookup(fields, "$ref");
        if own.Some? && own.value.Text? && COMPONENTS <= own.value.text {
          refs := refs + {own.value.text};
        }
        for i := 0 to |fields|
          invariant old(refs) + Refs(v) == refs + FieldsRefs(fields[i..])
        {
          assert fields[i..][0] == fields[i] && fields[i..][1..] == fields[i + 1..];
          Collect(fields[i].value);
        }
      case Array(items) =>
        for i := 0 to |items|
          invariant old(refs) + Refs(v) == refs + ItemsRefs(items[i..])
        {
          assert items[i..][0] == items[i] && items[i..][1..] == items[i + 1..];
          Collect(items[i]);
        }
      case _ =>
    }
  }

  // ---- JSON pointers (RFC 6901) ------------------------------------------------------------------------

  function Split(s: string): (parts: seq<string>)
    ensures parts != []
  {
    if s == [] then [""]
    else
      var rest := Split(s[1..]);
      if s[0] == '/' then [""] + rest else [[s[0]] + rest[0]] + rest[1..]
  }

  function Replace(s: string, second: char, with: char): string {
    if |s| < 2 then s
    else if s[0] == '~' && s[1] == second then [with] + Replace(s[2..], second, with)
    else [s[0]] + Replace(s[1..], second, with)
  }

  function Unescape(token: string): string {
    Replace(Replace(token, '1', '/'), '0', '~')
  }

  function Index(token: string): Option<nat> {
    if token == "" || !AllDigits(token) || (token[0] == '0' && |token| != 1) then None else Some(DigitsValue(token))
  }

  function Child(v: Value, token: string): Option<Value> {
    match v
    case Object(fields) => Lookup(fields, token)
    case Array(items) =>
      var index := Index(token);
      if index.Some? && index.value < |items| then Some(items[index.value]) else None
    case _ => None
  }

  function Walk(v: Value, tokens: seq<string>): Option<Value>
    decreases |tokens|
  {
    if tokens == [] then Some(v)
    else
      var child := Child(v, Unescape(tokens[0]));
      if child.None? then None else Walk(child.value, tokens[1..])
  }

  function Pointer(v: Value, pointer: string): Option<Value> {
    if pointer == "" then Some(v)
    else if pointer[0] != '/' then None
    else Walk(v, Split(pointer[1..]))
  }

  // ---- The closure ---------------------------------------------------------------------------------------

  // What one reference leads to directly.
  function Targets(full: Value, reference: string): set<string> {
    if reference == "" then {}
    else
      var value := Pointer(full, reference[1..]);
      if value.Some? then Refs(value.value) else {}
  }

  ghost predicate Closed(full: Value, refs: set<string>) {
    forall r :: r in refs ==> Targets(full, r) <= refs
  }

  // A chain of references beginning in the start set.
  ghost predicate Chain(full: Value, start: set<string>, chain: seq<string>) {
    && chain != [] && chain[0] in start
    && forall i, j {:trigger chain[i], chain[j]} :: 0 <= i && j == i + 1 && j < |chain| ==> chain[j] in Targets(full, chain[i])
  }

  ghost predicate Reachable(full: Value, start: set<string>, reference: string) {
    exists chain: seq<string> :: Chain(full, start, chain) && chain[|chain| - 1] == reference
  }

  lemma {:induction false} RefsWithin(v: Value, tokens: seq<string>)
    requires Walk(v, tokens).Some?
    ensures Refs(Walk(v, tokens).value) <= Refs(v)
    decreases |tokens|
  {
    if tokens != [] {
      var child := Child(v, Unescape(tokens[0])).value;
      if v.Object? {
        FieldRefsWithin(v.fields, Unescape(tokens[0]));
      } else {
        ItemRefsWithin(v.items, Index(Unescape(tokens[0])).value);
      }
      RefsWithin(child, tokens[1..]);
      hide Unescape, Index;
    }
  }

  lemma {:induction false} FieldRefsWithin(fields: seq<Field>, key: string)
    requires Lookup(fields, key).Some?
    ensures Refs(Lookup(fields, key).value) <= FieldsRefs(fields)
  {
    if fields[0].key != key {
      FieldRefsWithin(fields[1..], key);
    }
  }

  lemma {:induction false} ItemRefsWithin(items: seq<Value>, i: nat)
    requires i < |items|
    ensures Refs(items[i]) <= ItemsRefs(items)
  {
    if i > 0 {
      ItemRefsWithin(items[1..], i - 1);
    }
  }

  lemma TargetsWithin(full: Value, reference: string)
    ensures Targets(full, reference) <= Refs(full)
  {
    if reference != "" && Pointer(full, reference[1..]).Some? && reference[1..] != "" {
      RefsWithin(full, Split(reference[2..]));
      assert reference[1..][1..] == reference[2..];
    }
    hide Refs, Walk, Split;
  }

  lemma ReachableGrows(full: Value, start: set<string>, reference: string, target: string)
    requires Reachable(full, start, reference) && target in Targets(full, reference)
    ensures Reachable(full, start, target)
  {
    var chain :| Chain(full, start, chain) && chain[|chain| - 1] == reference;
    var longer := chain + [target];
    assert Chain(full, start, longer) && longer[|longer| - 1] == target;
  }

  lemma {:induction false} ClosedHoldsChain(full: Value, start: set<string>, refs: set<string>, chain: seq<string>)
    requires start <= refs && Closed(full, refs) && Chain(full, start, chain)
    ensures chain[|chain| - 1] in refs
    decreases |chain|
  {
    var n := |chain| - 1;
    if n > 0 {
      assert Chain(full, start, chain[..n]);
      ClosedHoldsChain(full, start, refs, chain[..n]);
      assert chain[n] in Targets(full, chain[n - 1]);
    }
    hide Targets;
  }

  lemma {:induction false} RefsAreComponents(v: Value)
    ensures forall r :: r in Refs(v) ==> COMPONENTS <= r
    decreases v, 0
  {
    match v
    case Object(fields) => FieldsRefsAreComponents(fields);
    case Array(items) => ItemsRefsAreComponents(items);
    case _ =>
  }

  lemma {:induction false} FieldsRefsAreComponents(fields: seq<Field>)
    ensures forall r :: r in FieldsRefs(fields) ==> COMPONENTS <= r
    decreases fields
  {
    if fields != [] {
      RefsAreComponents(fields[0].value);
      FieldsRefsAreComponents(fields[1..]);
    }
  }

  lemma {:induction false} ItemsRefsAreComponents(items: seq<Value>)
    ensures forall r :: r in ItemsRefs(items) ==> COMPONENTS <= r
    decreases items
  {
    if items != [] {
      RefsAreComponents(items[0]);
      ItemsRefsAreComponents(items[1..]);
    }
  }

  ghost predicate AllComponents(refs: set<string>) {
    forall r :: r in refs ==> COMPONENTS <= r
  }

  lemma DocumentComponents(full: Value, paths: Value)
    ensures AllComponents(Refs(paths) + Refs(full))
  {
    RefsAreComponents(full);
    RefsAreComponents(paths);
  }

  lemma ComponentsBelow(small: set<string>, large: set<string>)
    requires small <= large && AllComponents(large)
    ensures AllComponents(small)
  {
  }

  // One round: the targets of every reference in a copy of the set.
  method Round(full: Value, found: Found)
    requires AllComponents(found.refs)
    modifies found
    ensures old(found.refs) <= found.refs
    ensures forall r :: r in old(found.refs) ==> Targets(full, r) <= found.refs
    ensures forall r :: r in found.refs ==> r in old(found.refs) || exists s :: s in old(found.refs) && r in Targets(full, s)
  {
    hide Refs, Pointer, Targets;
    var todo := found.refs;
    while todo != {}
      invariant todo <= old(found.refs) <= found.refs
      invariant forall r :: r in old(found.refs) && r !in todo ==> Targets(full, r) <= found.refs
      invariant forall r :: r in found.refs ==> r in old(found.refs) || exists s :: s in old(found.refs) && r in Targets(full, s)
      decreases todo
    {
      var reference :| reference in todo;
      assert COMPONENTS <= reference;
      ghost var before := found.refs;
      var value := Pointer(full, reference[1..]);
      if value.Some? {
        found.Collect(value.value);
      }
      TargetsCollected(full, reference, before, found.refs);
      todo := todo - {reference};
    }
  }

  lemma TargetsCollected(full: Value, reference: string, before: set<string>, after: set<string>)
    requires reference != ""
    requires after == before + if Pointer(full, reference[1..]).Some? then Refs(Pointer(full, reference[1..]).value) else {}
    ensures after == before + Targets(full, reference)
  {
  }

  ghost predicate AllReachable(full: Value, start: set<string>, refs: set<string>) {
    forall r :: r in refs ==> Reachable(full, start, r)
  }

  lemma RoundReaches(full: Value, start: set<string>, before: set<string>, after: set<string>)
    requires AllReachable(full, start, before)
    requires forall r :: r in after ==> r in before || exists s :: s in before && r in Targets(full, s)
    ensures AllReachable(full, start, after) && after <= before + Refs(full)
  {
    forall r | r in after ensures Reachable(full, start, r) && r in before + Refs(full) {
      if r !in before {
        var source :| source in before && r in Targets(full, source);
        ReachableGrows(full, start, source, r);
        TargetsWithin(full, source);
      }
      hide Reachable, Targets, Refs;
    }
  }

  // The fixpoint loop: rounds over a copy of the set until a round adds nothing.  It ends because
  // every reference it can add is written somewhere in the document.
  method Closure(full: Value, paths: Value) returns (needed: set<string>)
    ensures Refs(paths) <= needed && Closed(full, needed)
    ensures forall r :: r in needed <==> Reachable(full, Refs(paths), r)
    ensures forall other :: Refs(paths) <= other && Closed(full, other) ==> needed <= other
  {
    var found := new Found();
    found.Collect(paths);
    ghost var start, universe := Refs(paths), Refs(paths) + Refs(full);
    StartReachable(full, start);
    DocumentComponents(full, paths);
    hide Reachable, Refs, Closed, Targets, AllComponents;
    var grown := true;
    while grown
      invariant start <= found.refs <= universe
      invariant AllReachable(full, start, found.refs)
      invariant !grown ==> Closed(full, found.refs)
      decreases |universe| - |found.refs|, grown
    {
      ghost var previous := found.refs;
      var before := |found.refs|;
      ComponentsBelow(found.refs, universe);
      Round(full, found);
      RoundReaches(full, start, previous, found.refs);
      grown := |found.refs| != before;
      SubsetSize(previous, found.refs);
      SubsetSize(found.refs, universe);
      if !grown {
        RoundClosed(full, found.refs);
      }
    }
    needed := found.refs;
    ClosedIsReachable(full, start, needed);
  }

  lemma RoundClosed(full: Value, refs: set<string>)
    requires forall r :: r in refs ==> Targets(full, r) <= refs
    ensures Closed(full, refs)
  {
  }

  lemma StartReachable(full: Value, start: set<string>)
    ensures forall r :: r in start ==> Reachable(full, start, r)
  {
    forall r | r in start ensures Reachable(full, start, r) {
      assert Chain(full, start, [r]) && [r][|[r]| - 1] == r;
    }
  }

  lemma SubsetSize(small: set<string>, large: set<string>)
    requires small <= large
    ensures |small| <= |large| && (|small| == |large| ==> small == large)
  {
    assert large == small + (large - small);
    assert |large| == |small| + |large - small|;
  }

  // A closed set of reachable references that holds the start set is exactly the reachable ones, and
  // the least such set.
  lemma ClosedIsReachable(full: Value, start: set<string>, needed: set<string>)
    requires start <= needed && Closed(full, needed)
    requires forall r :: r in needed ==> Reachable(full, start, r)
    ensures forall r :: Reachable(full, start, r) ==> r in needed
    ensures forall other :: start <= other && Closed(full, other) ==> needed <= other
  {
    forall r | Reachable(full, start, r) ensures r in needed {
      var chain :| Chain(full, start, chain) && chain[|chain| - 1] == r;
      ClosedHoldsChain(full, start, needed, chain);
    }
    forall other | start <= other && Closed(full, other) ensures needed <= other {
      forall r | r in needed ensures r in other {
        var chain :| Chain(full, start, chain) && chain[|chain| - 1] == r;
        ClosedHoldsChain(full, start, other, chain);
      }
    }
  }

  // ---- The public document ---------------------------------------------------------------------------------

  predicate Commercial(path: string) {
    "/api/" <= path || path == "/auth/token" || path == "/auth/me"
  }

  function KeptPaths(paths: seq<Field>): seq<Field> {
    if paths == [] then []
    else if Commercial(paths[0].key) then [paths[0]] + KeptPaths(paths[1..])
    else KeptPaths(paths[1..])
  }

  function Reference(category: string, name: string): string {
    COMPONENTS + category + "/" + name
  }

  function KeptNames(category: string, names: seq<Field>, needed: set<string>): seq<Field> {
    if names == [] then []
    else if Reference(category, names[0].key) in needed then [names[0]] + KeptNames(category, names[1..], needed)
    else KeptNames(category, names[1..], needed)
  }

  // Every category but the security schemes, without the names nobody needs; empty ones disappear.
  function KeptCategories(categories: seq<Field>, needed: set<string>): seq<Field> {
    if categories == [] then []
    else
      var rest := KeptCategories(categories[1..], needed);
      var names := KeptNames(categories[0].key, Members(categories[0].value), needed);
      if categories[0].key == SECURITY || names == [] then rest
      else [Field(categories[0].key, Object(names))] + rest
  }

  function MachineOnly(full: Value): Value {
    Object([Field("machine_token", Member(Member(Member(full, "components"), SECURITY), "machine_token"))])
  }

  datatype PublicDoc = PublicDoc(paths: seq<Field>, components: seq<Field>, security: Value)

  // The references of the kept paths, which everything needed is reached from.
  function StartRefs(full: Value): set<string> {
    Refs(Object(KeptPaths(Members(Member(full, "paths")))))
  }

  ghost predicate NeededBy(full: Value, needed: set<string>) {
    Closed(full, needed) && forall r :: r in needed <==> Reachable(full, StartRefs(full), r)
  }

  // The kept paths, the components whose references are needed and the one security scheme.
  ghost predicate Publishes(full: Value, doc: PublicDoc) {
    && Member(full, "paths").Object? && Member(full, "components").Object?
    && doc.paths == KeptPaths(Member(full, "paths").fields)
    && doc.security == MachineOnly(full)
    && exists needed :: NeededBy(full, needed) && doc.components == KeptCategories(Member(full, "components").fields, needed)
  }

  // The document must have objects as paths and components, or the service does not start.
  method Publish(full: Value) returns (doc: Option<PublicDoc>)
    ensures doc.Some? <==> Member(full, "paths").Object? && Member(full, "components").Object?
    ensures doc.Some? ==> Publishes(full, doc.value)
  {
    hide Refs, Reachable, Closed, KeptNames, KeptPaths, Lookup;
    var paths, components := Member(full, "paths"), Member(full, "components");
    if !paths.Object? || !components.Object? {
      return None;
    }
    var kept := KeptPaths(paths.fields);
    var needed := Closure(full, Object(kept));
    assert NeededBy(full, needed);
    var safe: seq<Field> := [];
    for i := 0 to |components.fields|
      invariant KeptCategories(components.fields, needed) == safe + KeptCategories(components.fields[i..], needed)
    {
      assert components.fields[i..][0] == components.fields[i] && components.fields[i..][1..] == components.fields[i + 1..];
      var category := components.fields[i];
      if category.key != SECURITY {
        var names := KeptNames(category.key, Members(category.value), needed);
        if names != [] {
          ghost var before, rest := safe, KeptCategories(components.fields[i + 1..], needed);
          safe := safe + [Field(category.key, Object(names))];
          assert before + ([Field(category.key, Object(names))] + rest) == safe + rest;
        }
      }
    }
    assert components.fields[|components.fields|..] == [];
    doc := Some(PublicDoc(kept, safe, MachineOnly(full)));
  }

  function Component(categories: seq<Field>, category: string, name: string): Option<Value> {
    var names := Lookup(categories, category);
    if names.Some? then Lookup(Members(names.value), name) else None
  }

  lemma {:induction false} KeptNamesLookup(category: string, names: seq<Field>, needed: set<string>, name: string)
    ensures Lookup(KeptNames(category, names, needed), name) ==
            if Reference(category, name) in needed then Lookup(names, name) else None
  {
    if names != [] {
      KeptNamesLookup(category, names[1..], needed, name);
    }
    hide Reference;
  }

  lemma {:induction false} KeptCategoriesAbsent(categories: seq<Field>, needed: set<string>, category: string)
    requires forall i :: 0 <= i < |categories| ==> categories[i].key != category
    ensures Lookup(KeptCategories(categories, needed), category) == None
  {
    if categories != [] {
      KeptCategoriesAbsent(categories[1..], needed, category);
    }
  }

  // A component is published exactly when its plain reference is needed, with its full definition.
  lemma {:induction false} PublishedExactlyNeeded(categories: seq<Field>, needed: set<string>, category: string, name: string)
    requires DistinctKeys(categories) && category != SECURITY
    ensures Component(KeptCategories(categories, needed), category, name) ==
            if Reference(category, name) in needed then Component(categories, category, name) else None
  {
    if categories != [] {
      var first, rest := categories[0], categories[1..];
      PublishedExactlyNeeded(rest, needed, category, name);
      if first.key == category {
        KeptNamesLookup(category, Members(first.value), needed, name);
        forall i | 0 <= i < |rest| ensures rest[i].key != category {
          assert rest[i] == categories[i + 1];
        }
        KeptCategoriesAbsent(rest, needed, category);
      }
      hide Reference, KeptNames;
    }
  }

  lemma {:induction false} SecurityPruned(categories: seq<Field>, needed: set<string>)
    ensures Lookup(KeptCategories(categories, needed), SECURITY) == None
  {
    if categories != [] {
      SecurityPruned(categories[1..], needed);
    }
  }

  // ---- References and pointers -----------------------------------------------------------------------------

  predicate Plain(token: string) {
    forall i :: 0 <= i < |token| ==> token[i] != '/' && token[i] != '~'
  }

  lemma {:induction false} SplitNoSlash(token: string, rest: string)
    requires forall i :: 0 <= i < |token| ==> token[i] != '/'
    ensures Split(token) == [token]
    ensures Split(token + "/" + rest) == [token] + Split(rest)
  {
    var whole := token + "/" + rest;
    if token == [] {
      assert whole[1..] == rest;
    } else {
      SplitNoSlash(token[1..], rest);
      assert whole[1..] == token[1..] + "/" + rest;
      assert [token[0]] + token[1..] == token;
      var parts := Split(whole[1..]);
      assert parts[0] == token[1..] && parts[1..] == Split(rest);
    }
  }

  lemma {:induction false} ReplacePlain(token: string, second: char, with: char)
    requires Plain(token)
    ensures Replace(token, second, with) == token
  {
    if |token| >= 2 {
      ReplacePlain(token[1..], second, with);
      assert [token[0]] + token[1..] == token;
    }
  }

  lemma PointerThrough(full: Value, pointer: string, root: string, tokens: seq<string>)
    requires pointer != "" && pointer[0] == '/' && Split(pointer[1..]) == [root] + tokens && Plain(root)
    ensures Pointer(full, pointer) ==
            var child := Child(full, root);
            if child.None? then None else Walk(child.value, tokens)
  {
    ReplacePlain(root, '1', '/');
    ReplacePlain(root, '0', '~');
    assert Unescape(root) == root;
    hide Replace, Split, Child, Unescape;
    assert ([root] + tokens)[1..] == tokens;
  }

  // Nothing internal leaks: every published component outside the security schemes is reachable from
  // a published path.
  lemma OnlyReachablePublished(full: Value, paths: seq<Field>, needed: set<string>, category: string, name: string)
    requires Member(full, "components").Object? && DistinctKeys(Member(full, "components").fields)
    requires category != SECURITY
    requires forall r :: r in needed <==> Reachable(full, Refs(Object(paths)), r)
    requires Component(KeptCategories(Member(full, "components").fields, needed), category, name).Some?
    ensures Reachable(full, Refs(Object(paths)), Reference(category, name))
  {
    PublishedExactlyNeeded(Member(full, "components").fields, needed, category, name);
    hide KeptCategories, Reachable, Refs, Component;
  }

  // How a name is written inside a pointer (section 3 of RFC 6901).
  function Escape(token: string): string {
    if token == [] then []
    else (if token[0] == '~' then "~0" else if token[0] == '/' then "~1" else [token[0]]) + Escape(token[1..])
  }

  function TildesEscaped(token: string): string {
    if token == [] then []
    else (if token[0] == '~' then "~0" else [token[0]]) + TildesEscaped(token[1..])
  }

  lemma ReplaceStep(a: char, b: char, rest: string, second: char, with: char)
    ensures Replace([a, b] + rest, second, with) ==
            if a == '~' && b == second then [with] + Replace(rest, second, with) else [a] + Replace([b] + rest, second, with)
  {
    assert ([a, b] + rest)[2..] == rest && ([a, b] + rest)[1..] == [b] + rest;
  }

  lemma ReplaceSkips(a: char, rest: string, second: char, with: char)
    requires a != '~'
    ensures Replace([a] + rest, second, with) == [a] + Replace(rest, second, with)
  {
    if rest == [] {
      assert [a] + rest == [a];
    } else {
      assert ([a] + rest)[1..] == rest;
    }
  }

  lemma {:induction false} SlashesBack(token: string)
    ensures Replace(Escape(token), '1', '/') == TildesEscaped(token)
  {
    if token != [] {
      var rest := Escape(token[1..]);
      SlashesBack(token[1..]);
      if token[0] == '~' {
        ReplaceStep('~', '0', rest, '1', '/');
        ReplaceSkips('0', rest, '1', '/');
        assert ['~', '0'] + rest == "~0" + rest;
        assert ['~'] + (['0'] + TildesEscaped(token[1..])) == "~0" + TildesEscaped(token[1..]);
      } else if token[0] == '/' {
        ReplaceStep('~', '1', rest, '1', '/');
        assert ['~', '1'] + rest == "~1" + rest;
      } else {
        ReplaceSkips(token[0], rest, '1', '/');
      }
      hide Replace;
    }
  }

  lemma {:induction false} TildesBack(token: string)
    ensures Replace(TildesEscaped(token), '0', '~') == token
  {
    if token != [] {
      var rest := TildesEscaped(token[1..]);
      TildesBack(token[1..]);
      assert [token[0]] + token[1..] == token;
      if token[0] == '~' {
        ReplaceStep('~', '0', rest, '0', '~');
        assert ['~', '0'] + rest == "~0" + rest;
      } else {
        ReplaceSkips(token[0], rest, '0', '~');
      }
      hide Replace;
    }
  }

  lemma UnescapeEscape(token: string)
    ensures Unescape(Escape(token)) == token
  {
    SlashesBack(token);
    TildesBack(token);
    hide Replace, Escape, TildesEscaped;
  }

  lemma {:induction false} EscapedHasNoSlash(token: string)
    ensures forall i :: 0 <= i < |Escape(token)| ==> Escape(token)[i] != '/'
    ensures |Escape(token)| >= |token|
    ensures |Escape(token)| == |token| <==> Plain(token)
    ensures Plain(token) ==> Escape(token) == token
  {
    if token != [] {
      EscapedHasNoSlash(token[1..]);
      assert token == [token[0]] + token[1..];
    }
  }

  lemma EscapedTokens(category: string, name: string)
    ensures var reference := Reference(Escape(category), Escape(name));
            && reference != "" && reference[1..] != "" && reference[1..][0] == '/'
            && Split(reference[1..][1..]) == ["components"] + [Escape(category), Escape(name)]
  {
    hide Split;
    var first, second := Escape(category), Escape(name);
    EscapedHasNoSlash(category);
    EscapedHasNoSlash(name);
    hide Escape;
    var root := "components";
    assert Reference(first, second)[1..][1..] == root + "/" + (first + "/" + second);
    SplitNoSlash(root, first + "/" + second);
    SplitNoSlash(first, second);
    SplitNoSlash(second, "");
    assert [first] + [second] == [first, second];
  }

  lemma WalkEscaped(v: Value, category: string, name: string)
    requires v.Object?
    ensures Walk(v, [Escape(category), Escape(name)]) ==
            var names := Lookup(v.fields, category);
            if names.None? then None else Child(names.value, name)
  {
    UnescapeEscape(category);
    UnescapeEscape(name);
    hide Escape, Index, Unescape, Lookup;
    var tokens := [Escape(category), Escape(name)];
    assert tokens[1..] == [Escape(name)] && [Escape(name)][1..] == [];
    var names := Lookup(v.fields, category);
    assert Child(v, category) == names;
    if names.Some? {
      assert Walk(v, tokens) == Walk(names.value, [Escape(name)]);
      var child := Child(names.value, name);
      if child.Some? {
        assert Walk(child.value, []) == Some(child.value);
      }
    }
  }

  // Whatever its name, a component's escaped reference points at it.
  lemma ReferenceResolves(full: Value, category: string, name: string)
    requires full.Object? && Member(full, "components").Object?
    ensures Pointer(full, Reference(Escape(category), Escape(name))[1..]) ==
            var names := Lookup(Member(full, "components").fields, category);
            if names.None? then None else Child(names.value, name)
  {
    EscapedTokens(category, name);
    WalkEscaped(Member(full, "components"), category, name);
    PointerThrough(full, Reference(Escape(category), Escape(name))[1..], "components", [Escape(category), Escape(name)]);
    hide Escape, Split, Index, Unescape, Reference, Lookup, Walk, Pointer;
  }

  // Names without '/' and '~' need no escaping, so their plain reference points at them.
  lemma PlainReferenceResolves(full: Value, category: string, name: string)
    requires full.Object? && Member(full, "components").Object? && Plain(category) && Plain(name)
    ensures Pointer(full, Reference(category, name)[1..]) ==
            var names := Lookup(Member(full, "components").fields, category);
            if names.None? then None else Child(names.value, name)
  {
    EscapedHasNoSlash(category);
    EscapedHasNoSlash(name);
    ReferenceResolves(full, category, name);
    hide Escape, Split, Index, Reference, Lookup, Pointer;
  }

  // The published document is self-contained for direct references: whatever a published path or a
  // needed component points at directly is published with it, unchanged.
  lemma PublishedIsSelfContained(full: Value, paths: seq<Field>, needed: set<string>, category: string, name: string, source: string)
    requires full.Object? && Member(full, "components").Object? && DistinctKeys(Member(full, "components").fields)
    requires category != SECURITY && Plain(category) && Plain(name)
    requires forall r :: r in needed <==> Reachable(full, Refs(Object(paths)), r)
    requires Closed(full, needed)
    requires Reference(category, name) in Refs(Object(paths)) || (source in needed && Reference(category, name) in Targets(full, source))
    requires Pointer(full, Reference(category, name)[1..]).Some?
    requires Lookup(Member(full, "components").fields, category).Some? ==>
               Lookup(Member(full, "components").fields, category).value.Object?
    ensures Component(KeptCategories(Member(full, "components").fields, needed), category, name) ==
            Pointer(full, Reference(category, name)[1..])
  {
    var reference := Reference(category, name);
    StartReachable(full, Refs(Object(paths)));
    hide Reference, Refs, Reachable, Targets, Pointer, KeptCategories, Lookup, Index;
    assert reference in needed;
    PlainReferenceResolves(full, category, name);
    PublishedExactlyNeeded(Member(full, "components").fields, needed, category, name);
  }

  // ---- Which components a whole document publishes --------------------------------------------------------

  ghost predicate IsEscape(reference: string) {
    exists category: string, name: string :: reference == Reference(Escape(category), Escape(name))
  }

  // Every component reference written in the document is an escaped category and name.
  ghost predicate WellReferenced(full: Value) {
    forall r :: r in Refs(full) ==> IsEscape(r)
  }

  // A chain of references from a kept path leads to the component.
  ghost predicate Needs(full: Value, category: string, name: string) {
    category != SECURITY && Reachable(full, StartRefs(full), Reference(Escape(category), Escape(name)))
  }

  predicate Defines(full: Value, category: string, name: string) {
    Component(Members(Member(full, "components")), category, name).Some?
  }

  predicate Shows(doc: PublicDoc, full: Value, category: string, name: string) {
    && Defines(full, category, name)
    && Component(doc.components, category, name) == Component(Members(Member(full, "components")), category, name)
  }

  ghost predicate NothingDangles(full: Value) {
    forall category, name :: Needs(full, category, name) ==> Defines(full, category, name)
  }

  lemma {:induction false} KeptPathsWithin(paths: seq<Field>)
    ensures FieldsRefs(KeptPaths(paths)) <= FieldsRefs(paths)
    ensures Lookup(paths, "$ref").None? ==> Lookup(KeptPaths(paths), "$ref").None?
  {
    if paths != [] {
      KeptPathsWithin(paths[1..]);
      assert KeptPaths(paths) == if Commercial(paths[0].key) then [paths[0]] + KeptPaths(paths[1..]) else KeptPaths(paths[1..]);
      hide Refs, Commercial;
    }
  }

  lemma {:induction false} KeptPathsNotRef(paths: seq<Field>)
    ensures Lookup(KeptPaths(paths), "$ref").None?
  {
    if paths != [] {
      KeptPathsNotRef(paths[1..]);
      assert !Commercial("$ref") by {
        assert "$ref"[0] == '$';
      }
    }
  }

  lemma StartWithin(full: Value)
    ensures StartRefs(full) <= Refs(full)
  {
    var paths := Get(full, "paths");
    KeptPathsNotRef(Members(Member(full, "paths")));
    KeptPathsWithin(Members(Member(full, "paths")));
    if paths.Some? {
      FieldRefsWithin(full.fields, "paths");
    }
    hide KeptPaths, Lookup;
  }

  // Everything reachable is written in the document.
  lemma ReachableWithin(full: Value, reference: string)
    requires Reachable(full, StartRefs(full), reference)
    ensures reference in Refs(full)
  {
    var chain :| Chain(full, StartRefs(full), chain) && chain[|chain| - 1] == reference;
    StartWithin(full);
    hide StartRefs, Refs, Targets;
    if |chain| > 1 {
      TargetsWithin(full, chain[|chain| - 2]);
      assert chain[|chain| - 1] in Targets(full, chain[|chain| - 2]);
    }
  }

  // Pruning in the document's own terms: a component is published exactly when its unescaped
  // spelling is reachable.
  lemma PublishedIffReachable(full: Value, doc: PublicDoc, category: string, name: string)
    requires Publishes(full, doc) && DistinctKeys(Member(full, "components").fields)
    requires category != SECURITY && Defines(full, category, name)
    ensures Shows(doc, full, category, name) <==> Reachable(full, StartRefs(full), Reference(category, name))
  {
    var needed :| NeededBy(full, needed) && doc.components == KeptCategories(Member(full, "components").fields, needed);
    PublishedExactlyNeeded(Member(full, "components").fields, needed, category, name);
    hide KeptCategories, Component, Reachable, StartRefs, Reference;
  }

  lemma SlashAt(first: string, second: string, k: nat)
    requires '/' !in first && '/' !in second
    requires k < |first + "/" + second| && (first + "/" + second)[k] == '/'
    ensures k == |first|
  {
    var joined := first + "/" + second;
    forall i | 0 <= i < |joined| && i != |first| ensures joined[i] != '/' {
      assert joined[i] == if i < |first| then first[i] else second[i - |first| - 1];
    }
  }

  lemma OneSlash(category: string, name: string, first: string, second: string)
    requires Reference(category, name) == Reference(first, second)
    requires '/' !in first && '/' !in second
    ensures category == first && name == second
  {
    var left, right := category + "/" + name, first + "/" + second;
    var a, b := Reference(category, name), Reference(first, second);
    assert a == COMPONENTS + left && b == COMPONENTS + right;
    assert left == right by {
      assert a[|COMPONENTS|..] == left && b[|COMPONENTS|..] == right;
    }
    assert left[|category|] == '/';
    SlashAt(first, second, |category|);
    assert category == left[..|category|] && first == right[..|first|];
    assert name == left[|category| + 1..] && second == right[|first| + 1..];
  }

  lemma SpelledReference(category: string, name: string)
    requires IsEscape(Reference(category, name))
    ensures exists other, its :: Spells(category, name, other, its)
  {
    var other: string, its: string :| Reference(category, name) == Reference(Escape(other), Escape(its));
    EscapedHasNoSlash(other);
    EscapedHasNoSlash(its);
    hide Escape, Reference;
    OneSlash(category, name, Escape(other), Escape(its));
    assert Spells(category, name, other, its);
  }

  // The component's name, read as an escape, is the other one's.
  predicate Spells(category: string, name: string, other: string, its: string) {
    category == Escape(other) && name == Escape(its)
  }

  // In a well-referenced document a component is published exactly when its own category and name are
  // the escaped spelling of a component the kept paths need.
  lemma PublishedIffSpelled(full: Value, doc: PublicDoc, category: string, name: string)
    requires Publishes(full, doc) && DistinctKeys(Member(full, "components").fields) && WellReferenced(full)
    requires category != SECURITY && Defines(full, category, name)
    ensures Shows(doc, full, category, name) <==>
            exists other, its :: Spells(category, name, other, its) && Needs(full, other, its)
  {
    PublishedIffReachable(full, doc, category, name);
    hide Publishes, Shows, Defines, Escape;
    if Reachable(full, StartRefs(full), Reference(category, name)) {
      ReachableWithin(full, Reference(category, name));
      SpelledReference(category, name);
      var other, its :| Spells(category, name, other, its);
      SecurityIsItself(other);
      assert Needs(full, other, its);
    }
    hide Reachable, StartRefs, Reference;
  }

  lemma SecurityIsItself(token: string)
    ensures Escape(token) == SECURITY <==> token == SECURITY
  {
    SecurityIsPlain();
    PlainEscape(token, SECURITY);
    hide *;
  }

  lemma SecurityIsPlain()
    ensures Plain(SECURITY)
  {
  }

  lemma PlainEscape(token: string, plain: string)
    requires Plain(plain)
    ensures Escape(token) == plain <==> token == plain
  {
    UnescapeEscape(token);
    EscapedHasNoSlash(plain);
    ReplacePlain(plain, '1', '/');
    ReplacePlain(plain, '0', '~');
    hide Escape, Replace, Plain;
  }

  // For names without a tilde that is: exactly when they have no slash either.
  lemma TildeFreePublishedIff(full: Value, doc: PublicDoc, category: string, name: string)
    requires Publishes(full, doc) && DistinctKeys(Member(full, "components").fields) && WellReferenced(full)
    requires Needs(full, category, name) && Defines(full, category, name)
    requires '~' !in category && '~' !in name
    ensures Shows(doc, full, category, name) <==> Plain(category) && Plain(name)
  {
    hide Publishes, Shows, Defines, Escape, WellReferenced, Needs, Plain;
    NeedsNoSecurity(full, category, name);
    PublishedIffSpelled(full, doc, category, name);
    if Shows(doc, full, category, name) {
      var other, its :| Spells(category, name, other, its) && Needs(full, other, its);
      TildeFreeEscape(other);
      TildeFreeEscape(its);
    }
    if Plain(category) && Plain(name) {
      EscapedHasNoSlash(category);
      EscapedHasNoSlash(name);
      assert Spells(category, name, category, name);
    }
  }

  lemma {:induction false} TildeFreeEscape(token: string)
    ensures '~' !in Escape(token) ==> Plain(Escape(token))
  {
    EscapedHasNoSlash(token);
  }

  ghost predicate ShowsNeeded(full: Value, doc: PublicDoc) {
    forall category, name :: Needs(full, category, name) ==> Shows(doc, full, category, name)
  }

  ghost predicate NeedsPlain(full: Value) {
    forall category, name :: Needs(full, category, name) ==> Plain(category) && Plain(name)
  }

  // A needed component with a name to escape is either lost itself, or published for being the escaped
  // spelling of a shorter one that needs escaping too; so some needed component is lost.
  lemma {:induction false} SomethingLost(full: Value, doc: PublicDoc, category: string, name: string)
    requires Publishes(full, doc) && DistinctKeys(Member(full, "components").fields) && WellReferenced(full)
    requires NothingDangles(full) && Needs(full, category, name) && !(Plain(category) && Plain(name))
    ensures !ShowsNeeded(full, doc)
    decreases |category| + |name|
  {
    hide Publishes, Shows, Defines, Escape, WellReferenced, Needs, Plain;
    if Shows(doc, full, category, name) {
      NeedsNoSecurity(full, category, name);
      PublishedIffSpelled(full, doc, category, name);
      var other, its :| Spells(category, name, other, its) && Needs(full, other, its);
      EscapedHasNoSlash(other);
      EscapedHasNoSlash(its);
      SomethingLost(full, doc, other, its);
    }
  }

  lemma NeedsNoSecurity(full: Value, category: string, name: string)
    requires Needs(full, category, name)
    ensures category != SECURITY
  {
  }

  // The published document is complete exactly when no needed component has a name to escape.
  lemma PublishedCompleteIffPlain(full: Value, doc: PublicDoc)
    requires Publishes(full, doc) && DistinctKeys(Member(full, "components").fields)
    requires WellReferenced(full) && NothingDangles(full)
    ensures ShowsNeeded(full, doc) <==> NeedsPlain(full)
  {
    hide Publishes, Shows, Defines, Escape, WellReferenced, Needs, Plain;
    if NeedsPlain(full) {
      forall category, name | Needs(full, category, name) ensures Shows(doc, full, category, name) {
        NeedsNoSecurity(full, category, name);
        EscapedHasNoSlash(category);
        EscapedHasNoSlash(name);
        assert Spells(category, name, category, name);
        PublishedIffSpelled(full, doc, category, name);
      }
    } else {
      var category, name :| Needs(full, category, name) && !(Plain(category) && Plain(name));
      SomethingLost(full, doc, category, name);
    }
  }

  // ---- References of a published document, however deep -------------------------------------------------------

  // The published document as it is read: components with the one security scheme, and paths.
  function Rendered(doc: PublicDoc): Value {
    Object([Field("components", Object(doc.components + [Field(SECURITY, doc.security)])), Field("paths", Object(doc.paths))])
  }

  function TokensOf(reference: string): (tokens: seq<string>)
    requires COMPONENTS <= reference
    ensures tokens != []
  {
    Split(reference[|COMPONENTS|..])
  }

  predicate Resolves(doc: PublicDoc, reference: string)
    requires COMPONENTS <= reference
  {
    Pointer(Rendered(doc), reference[1..]).Some?
  }

  // A component whose own reference, spelled without escapes, is reachable.
  ghost predicate Printed(full: Value, category: string, name: string) {
    category != SECURITY && Defines(full, category, name) && Reachable(full, StartRefs(full), Reference(category, name))
  }

  // A reference into a component needs the whole component printed; one to a category, some component
  // of it; one to the security schemes, the one that is kept.
  ghost predicate Settled(full: Value, reference: string)
    requires COMPONENTS <= reference
  {
    var tokens := TokensOf(reference);
    var category := Unescape(tokens[0]);
    if category == SECURITY then Walk(MachineOnly(full), tokens[1..]).Some?
    else if |tokens| == 1 then exists name :: Printed(full, category, name)
    else
      var name := Unescape(tokens[1]);
      && Printed(full, category, name)
      && Walk(Component(Members(Member(full, "components")), category, name).value, tokens[2..]).Some?
  }

  lemma ComponentPointer(v: Value, reference: string)
    requires COMPONENTS <= reference
    ensures Pointer(v, reference[1..]) ==
            var child := Child(v, "components");
            if child.None? then None else Walk(child.value, TokensOf(reference))
  {
    var root, rest := "components", reference[|COMPONENTS|..];
    var lead := COMPONENTS;
    assert lead == "#/" + root + "/";
    assert reference == lead + rest;
    assert reference[1..][0] == '/';
    assert reference[1..][1..] == root + "/" + rest;
    ComponentsIsPlain();
    hide Split, Walk, Child;
    SplitNoSlash(root, rest);
    PointerThrough(v, reference[1..], root, TokensOf(reference));
  }

  lemma ComponentsIsPlain()
    ensures Plain("components")
  {
  }

  lemma {:induction false} LookupJoined(a: seq<Field>, b: seq<Field>, key: string)
    ensures Lookup(a + b, key) == if Lookup(a, key).Some? then Lookup(a, key) else Lookup(b, key)
  {
    if a == [] {
      assert a + b == b;
    } else {
      LookupJoined(a[1..], b, key);
      assert (a + b)[0] == a[0] && (a + b)[1..] == a[1..] + b;
    }
  }

  lemma {:induction false} CategoryKept(categories: seq<Field>, needed: set<string>, category: string)
    requires DistinctKeys(categories) && category != SECURITY
    ensures var names, kept := Lookup(categories, category), Lookup(KeptCategories(categories, needed), category);
            if names.None? then kept.None?
            else
              var left := KeptNames(category, Members(names.value), needed);
              kept == if left == [] then None else Some(Object(left))
  {
    if categories != [] {
      var first, rest := categories[0], categories[1..];
      CategoryKept(rest, needed, category);
      if first.key == category {
        forall i | 0 <= i < |rest| ensures rest[i].key != category {
          assert rest[i] == categories[i + 1];
        }
        KeptCategoriesAbsent(rest, needed, category);
        LookupNone(rest, category);
      }
      hide KeptNames;
    }
  }

  lemma RenderedComponents(doc: PublicDoc)
    ensures Child(Rendered(doc), "components") == Some(Object(doc.components + [Field(SECURITY, doc.security)]))
  {
  }

  // What a category reads as in the published document.
  lemma RenderedCategory(full: Value, doc: PublicDoc, needed: set<string>, category: string)
    requires Member(full, "components").Object? && DistinctKeys(Member(full, "components").fields)
    requires doc.components == KeptCategories(Member(full, "components").fields, needed)
    ensures Lookup(doc.components + [Field(SECURITY, doc.security)], category) ==
            if category == SECURITY then Some(doc.security) else Lookup(doc.components, category)
  {
    var last := [Field(SECURITY, doc.security)];
    SecurityPruned(Member(full, "components").fields, needed);
    hide KeptCategories;
    LookupJoined(doc.components, last, category);
    assert last[1..] == [];
    assert Lookup(last, category) == if category == SECURITY then Some(doc.security) else None;
  }

  lemma WalkStep(v: Value, tokens: seq<string>)
    requires tokens != []
    ensures Walk(v, tokens) ==
            var child := Child(v, Unescape(tokens[0]));
            if child.None? then None else Walk(child.value, tokens[1..])
  {
    hide Child, Unescape;
  }

  lemma {:induction false} SomeNameKept(category: string, names: seq<Field>, needed: set<string>)
    ensures KeptNames(category, names, needed) != [] <==>
            exists name :: Lookup(names, name).Some? && Reference(category, name) in needed
  {
    if KeptNames(category, names, needed) != [] {
      var name := KeptNames(category, names, needed)[0].key;
      KeptNamesLookup(category, names, needed, name);
      assert Lookup(KeptNames(category, names, needed), name).Some?;
      assert Lookup(names, name).Some? && Reference(category, name) in needed;
    }
    forall name | Lookup(names, name).Some? && Reference(category, name) in needed ensures KeptNames(category, names, needed) != [] {
      KeptNamesLookup(category, names, needed, name);
    }
    hide Reference, KeptNames;
  }

  // A reference inside a published category, by its remaining tokens.
  lemma InsideCategory(full: Value, doc: PublicDoc, needed: set<string>, category: string, rest: seq<string>)
    requires Member(full, "components").Object? && DistinctKeys(Member(full, "components").fields)
    requires doc.components == KeptCategories(Member(full, "components").fields, needed) && category != SECURITY
    ensures var kept := Lookup(doc.components, category);
            (kept.Some? && Walk(kept.value, rest).Some?) <==>
            if rest == [] then exists name :: Defines(full, category, name) && Reference(category, name) in needed
            else
              var name := Unescape(rest[0]);
              && Defines(full, category, name) && Reference(category, name) in needed
              && Walk(Component(Members(Member(full, "components")), category, name).value, rest[1..]).Some?
  {
    var categories := Member(full, "components").fields;
    CategoryKept(categories, needed, category);
    var names, kept := Lookup(categories, category), Lookup(doc.components, category);
    hide KeptCategories, KeptNames, Reference, Unescape, Lookup, Walk;
    if names.Some? {
      var all := Members(names.value);
      var left := KeptNames(category, all, needed);
      SomeNameKept(category, all, needed);
      forall name ensures Defines(full, category, name) <==> Lookup(all, name).Some? {
      }
      if rest != [] {
        KeptNamesLookup(category, all, needed, Unescape(rest[0]));
        WalkStep(Object(left), rest);
      } else if kept.Some? {
        WalkNothing(kept.value);
      }
    } else {
      forall name ensures !Defines(full, category, name) {
      }
    }
  }

  lemma WalkNothing(v: Value)
    ensures Walk(v, []) == Some(v)
  {
  }

  lemma ResolvesIff(full: Value, doc: PublicDoc, reference: string)
    requires Publishes(full, doc) && DistinctKeys(Member(full, "components").fields) && COMPONENTS <= reference
    ensures Resolves(doc, reference) <==> Settled(full, reference)
  {
    var needed :| NeededBy(full, needed) && doc.components == KeptCategories(Member(full, "components").fields, needed);
    var tokens := TokensOf(reference);
    var category := Unescape(tokens[0]);
    ComponentPointer(Rendered(doc), reference);
    RenderedComponents(doc);
    RenderedCategory(full, doc, needed, category);
    WalkStep(Object(doc.components + [Field(SECURITY, doc.security)]), tokens);
    hide KeptCategories, Rendered, Pointer, Split, Unescape, Walk, Lookup, TokensOf, MachineOnly, Reachable, StartRefs, Reference, Component,
         Closed;
    if category != SECURITY {
      InsideCategory(full, doc, needed, category, tokens[1..]);
      if |tokens| > 1 {
        assert tokens[1..][0] == tokens[1] && tokens[1..][1..] == tokens[2..];
      } else {
        assert tokens[1..] == [];
        assert (exists name :: Printed(full, category, name)) <==>
               (exists name :: Defines(full, category, name) && Reference(category, name) in needed) by {
          forall name ensures Printed(full, category, name) <==> Defines(full, category, name) && Reference(category, name) in needed {
          }
        }
      }
    }
  }

  // The references written in the published paths and components.
  ghost predicate RefIn(doc: PublicDoc, reference: string) {
    || reference in Refs(Object(doc.paths))
    || exists category, name :: RefInComponent(doc.components, category, name, reference)
  }

  predicate RefInComponent(categories: seq<Field>, category: string, name: string, reference: string) {
    var component := Component(categories, category, name);
    component.Some? && reference in Refs(component.value)
  }

  // The same, told from the full document.
  ghost predicate RefPrinted(full: Value, reference: string) {
    || reference in StartRefs(full)
    || exists category, name :: Printed(full, category, name) &&
                                RefInComponent(Members(Member(full, "components")), category, name, reference)
  }

  lemma RefInIff(full: Value, doc: PublicDoc, reference: string)
    requires Publishes(full, doc) && DistinctKeys(Member(full, "components").fields)
    ensures RefIn(doc, reference) <==> RefPrinted(full, reference)
  {
    var needed :| NeededBy(full, needed) && doc.components == KeptCategories(Member(full, "components").fields, needed);
    var all := Members(Member(full, "components"));
    forall category, name
      ensures RefInComponent(doc.components, category, name, reference) <==>
              Printed(full, category, name) && RefInComponent(all, category, name, reference)
    {
      if category == SECURITY {
        SecurityPruned(all, needed);
      } else {
        PublishedExactlyNeeded(all, needed, category, name);
      }
      hide KeptCategories, Reachable, StartRefs, Reference, Refs, Closed;
    }
    hide KeptCategories, Printed, RefInComponent, Refs;
  }

  ghost predicate SelfContained(doc: PublicDoc) {
    forall r :: RefIn(doc, r) && COMPONENTS <= r ==> Resolves(doc, r)
  }

  ghost predicate AllSettled(full: Value) {
    forall r :: RefPrinted(full, r) && COMPONENTS <= r ==> Settled(full, r)
  }

  // For any document: every component reference of the published one resolves inside it exactly when each
  // of them is settled; one that leads into a component is only if that component is reachable as a whole.
  lemma PublishedResolvesIff(full: Value, doc: PublicDoc)
    requires Publishes(full, doc) && DistinctKeys(Member(full, "components").fields)
    ensures SelfContained(doc) <==> AllSettled(full)
  {
    hide Publishes, RefIn, RefPrinted, Settled, Resolves;
    forall r ensures RefIn(doc, r) <==> RefPrinted(full, r) {
      RefInIff(full, doc, r);
    }
    forall r | COMPONENTS <= r ensures Resolves(doc, r) <==> Settled(full, r) {
      ResolvesIff(full, doc, r);
    }
  }

  // ---- A document that loses a component ---------------------------------------------------------------------

  function Referring(category: string, name: string): Value {
    Object([Field("$ref", Text(Reference(Escape(category), Escape(name))))])
  }

  // One path whose one reference is to the one component.
  function OneComponent(path: string, category: string, name: string): Value {
    Object([Field("components", Object([Field(category, Object([Field(name, Null)]))])),
            Field("paths", Object([Field(path, Referring(category, name))]))])
  }

  lemma OneFieldRefs(key: string, v: Value)
    requires key != "$ref"
    ensures Refs(Object([Field(key, v)])) == Refs(v)
  {
    var fields := [Field(key, v)];
    assert fields[1..] == [];
    assert FieldsRefs(fields) == Refs(v) + FieldsRefs([]);
    assert Lookup(fields, "$ref") == Lookup([], "$ref");
  }

  lemma ReferringRefs(category: string, name: string)
    ensures Refs(Referring(category, name)) == {Reference(Escape(category), Escape(name))}
  {
    var reference := Reference(Escape(category), Escape(name));
    var fields := [Field("$ref", Text(reference))];
    assert COMPONENTS <= reference;
    assert fields[1..] == [];
    assert FieldsRefs(fields) == Refs(Text(reference)) + FieldsRefs([]);
    hide Escape, Reference;
  }

  lemma OneComponentRefs(path: string, category: string, name: string)
    requires Commercial(path) && path != "$ref" && category != "$ref" && name != "$ref"
    ensures Refs(OneComponent(path, category, name)) == StartRefs(OneComponent(path, category, name)) ==
            {Reference(Escape(category), Escape(name))}
  {
    var full := OneComponent(path, category, name);
    var inner, outer := Object([Field(name, Null)]), Object([Field(path, Referring(category, name))]);
    hide Escape, Reference, Commercial, Referring;
    OneFieldRefs(name, Null);
    OneFieldRefs(category, inner);
    ReferringRefs(category, name);
    OneFieldRefs(path, Referring(category, name));
    assert full.fields[1..] == [Field("paths", outer)] && full.fields[1..][1..] == [];
    assert FieldsRefs(full.fields) == Refs(Object([Field(category, inner)])) + FieldsRefs(full.fields[1..]);
    assert FieldsRefs(full.fields[1..]) == Refs(outer) + FieldsRefs([]);
    assert Lookup(full.fields, "$ref") == Lookup(full.fields[1..], "$ref") == Lookup([], "$ref");
    PathsOf(full, path, category, name);
  }

  lemma PathsOf(full: Value, path: string, category: string, name: string)
    requires full == OneComponent(path, category, name) && Commercial(path)
    ensures Member(full, "paths") == Object([Field(path, Referring(category, name))])
    ensures KeptPaths(Members(Member(full, "paths"))) == [Field(path, Referring(category, name))]
    ensures Member(full, "components") == Object([Field(category, Object([Field(name, Null)]))])
  {
    hide Escape, Reference, Commercial, Referring;
    var first, second := "components", "paths";
    assert first[0] == 'c' && second[0] == 'p';
    assert full.fields[1..][0] == full.fields[1];
    assert Lookup(full.fields, second) == Lookup(full.fields[1..], second) == Some(full.fields[1].value);
    assert Lookup(full.fields, first) == Some(full.fields[0].value);
    var paths := [Field(path, Referring(category, name))];
    assert paths[1..] == [] && KeptPaths([]) == [];
    assert KeptPaths(paths) == [paths[0]] + KeptPaths(paths[1..]);
  }

  lemma LostIn(doc: PublicDoc, path: string, category: string, name: string)
    requires Publishes(OneComponent(path, category, name), doc)
    requires Commercial(path) && path != "$ref" && category != "$ref" && name != "$ref" && category != SECURITY
    requires '~' !in category && '~' !in name && !(Plain(category) && Plain(name))
    ensures var full := OneComponent(path, category, name);
            Needs(full, category, name) && Defines(full, category, name) && !Shows(doc, full, category, name)
  {
    var full := OneComponent(path, category, name);
    OneComponentRefs(path, category, name);
    PathsOf(full, path, category, name);
    StartReachable(full, StartRefs(full));
    hide Publishes, Plain, Escape, Reference, Reachable, OneComponent, Commercial, StartRefs, Referring;
    assert IsEscape(Reference(Escape(category), Escape(name)));
    assert Needs(full, category, name);
    assert Lookup([Field(category, Object([Field(name, Null)]))], category) == Some(Object([Field(name, Null)]));
    assert Defines(full, category, name);
    hide Needs, Defines, Shows, Refs;
    TildeFreePublishedIff(full, doc, category, name);
  }

  lemma SlashedNames(path: string, category: string, name: string)
    requires path == "/auth/me" && category == "schemas" && name == "a/b"
    ensures Commercial(path) && path != "$ref" && category != "$ref" && name != "$ref" && category != SECURITY
    ensures '~' !in category && '~' !in name && !Plain(name)
  {
    assert path[0] == '/' && category[0] == 's' && name[0] == 'a' && name[1] == '/' && category[1] == 'c' && SECURITY[1] == 'e';
  }

  // A component called "a/b" is needed, defined and missing from whatever Publish returns.
  lemma SlashedComponentLost(doc: PublicDoc)
    requires Publishes(OneComponent("/auth/me", "schemas", "a/b"), doc)
    ensures var full := OneComponent("/auth/me", "schemas", "a/b");
            Needs(full, "schemas", "a/b") && Defines(full, "schemas", "a/b") && !Shows(doc, full, "schemas", "a/b")
  {
    hide Publishes, Needs, Defines, Shows, OneComponent, Commercial, Plain;
    SlashedNames("/auth/me", "schemas", "a/b");
    LostIn(doc, "/auth/me", "schemas", "a/b");
  }

  // ---- A document whose deep reference is lost ------------------------------------------------------------------

  function DeepReference(category: string, name: string, part: string): string {
    Reference(category, name) + "/" + part
  }

  // One path that refers to a part of the one component, and to nothing else.
  function OneDeepReference(path: string, category: string, name: string, part: string): Value {
    Object([Field("components", Object([Field(category, Object([Field(name, Object([Field(part, Null)]))]))])),
            Field("paths", Object([Field(path, Object([Field("$ref", Text(DeepReference(category, name, part)))]))]))])
  }

  lemma DeepTokens(category: string, name: string, part: string)
    requires Plain(category) && Plain(name) && Plain(part)
    ensures var reference := DeepReference(category, name, part);
            && COMPONENTS <= reference && TokensOf(reference) == [category, name, part]
            && Unescape(category) == category && Unescape(name) == name && Unescape(part) == part
  {
    var reference := DeepReference(category, name, part);
    assert reference[|COMPONENTS|..] == category + "/" + (name + "/" + part);
    SplitNoSlash(category, name + "/" + part);
    SplitNoSlash(name, part);
    SplitNoSlash(part, "");
    UnescapePlain(category);
    UnescapePlain(name);
    UnescapePlain(part);
    hide Split, Unescape;
    assert [category] + ([name] + [part]) == [category, name, part];
  }

  lemma UnescapePlain(token: string)
    requires Plain(token)
    ensures Unescape(token) == token
  {
    ReplacePlain(token, '1', '/');
    ReplacePlain(token, '0', '~');
    hide Replace, Plain;
  }

  lemma DeepRefs(path: string, category: string, name: string, part: string)
    requires Commercial(path) && path != "$ref" && category != "$ref" && name != "$ref" && part != "$ref"
    ensures var full := OneDeepReference(path, category, name, part);
            && Refs(full) == StartRefs(full) == {DeepReference(category, name, part)}
            && Member(full, "components") == Object([Field(category, Object([Field(name, Object([Field(part, Null)]))]))])
            && Member(full, "paths").Object?
  {
    var full := OneDeepReference(path, category, name, part);
    var reference := DeepReference(category, name, part);
    var leaf := Object([Field("$ref", Text(reference))]);
    var component, paths := Object([Field(part, Null)]), Object([Field(path, leaf)]);
    var names := Object([Field(name, component)]);
    var tops := full.fields;
    hide DeepReference, Commercial;
    assert COMPONENTS <= reference by {
      DeepStarts(category, name, part);
    }
    LeafRefs(reference);
    OneFieldRefs(part, Null);
    OneFieldRefs(name, component);
    OneFieldRefs(category, names);
    OneFieldRefs(path, leaf);
    TwoTops(Object([Field(category, names)]), paths);
    KeptOne(Field(path, leaf));
    hide Refs, Lookup, KeptPaths;
  }

  lemma DeepStarts(category: string, name: string, part: string)
    ensures COMPONENTS <= DeepReference(category, name, part)
  {
  }

  lemma LeafRefs(reference: string)
    requires COMPONENTS <= reference
    ensures Refs(Object([Field("$ref", Text(reference))])) == {reference}
  {
    var fields := [Field("$ref", Text(reference))];
    assert fields[1..] == [];
    assert FieldsRefs(fields) == Refs(Text(reference)) + FieldsRefs([]);
  }

  lemma TwoTops(components: Value, paths: Value)
    ensures var full := Object([Field("components", components), Field("paths", paths)]);
            && Refs(full) == Refs(components) + Refs(paths)
            && Member(full, "components") == components && Member(full, "paths") == paths
  {
    var fields := [Field("components", components), Field("paths", paths)];
    var first, second, other := "components", "paths", "$ref";
    assert first[0] == 'c' && second[0] == 'p' && other[0] == '$';
    assert fields[1..] == [Field("paths", paths)] && fields[1..][1..] == [];
    assert FieldsRefs(fields) == Refs(components) + FieldsRefs(fields[1..]);
    assert FieldsRefs(fields[1..]) == Refs(paths) + FieldsRefs([]);
    assert Lookup(fields, other) == Lookup(fields[1..], other) == Lookup([], other);
    assert Lookup(fields, second) == Lookup(fields[1..], second) == Some(paths);
    hide Refs;
  }

  lemma KeptOne(field: Field)
    requires Commercial(field.key)
    ensures KeptPaths([field]) == [field]
  {
    assert [field][1..] == [] && KeptPaths([]) == [];
  }

  lemma DeepLostIn(doc: PublicDoc, path: string, category: string, name: string, part: string)
    requires Publishes(OneDeepReference(path, category, name, part), doc)
    requires Commercial(path) && path != "$ref" && category != "$ref" && name != "$ref" && part != "$ref" && category != SECURITY
    requires Plain(category) && Plain(name) && Plain(part)
    ensures var full, reference := OneDeepReference(path, category, name, part), DeepReference(category, name, part);
            && COMPONENTS <= reference && RefIn(doc, reference)
            && Pointer(full, reference[1..]) == Some(Null) && !Resolves(doc, reference)
  {
    var full, reference := OneDeepReference(path, category, name, part), DeepReference(category, name, part);
    DeepRefs(path, category, name, part);
    DeepTokens(category, name, part);
    ResolvesIff(full, doc, reference);
    RefInIff(full, doc, reference);
    ComponentPointer(full, reference);
    DeepWalk(category, name, part);
    assert |reference| > |Reference(category, name)|;
    hide Publishes, Resolves, RefIn, OneDeepReference, DeepReference, Unescape, Plain, Commercial, TokensOf, Refs, Walk, Reference;
    if Reachable(full, StartRefs(full), Reference(category, name)) {
      ReachableWithin(full, Reference(category, name));
    }
    hide StartRefs, Reachable, Pointer;
    assert Child(full, "components") == Some(Member(full, "components"));
  }

  lemma DeepWalk(category: string, name: string, part: string)
    requires Plain(category) && Plain(name) && Plain(part)
    ensures Walk(Object([Field(category, Object([Field(name, Object([Field(part, Null)]))]))]), [category, name, part]) == Some(Null)
  {
    UnescapePlain(category);
    UnescapePlain(name);
    UnescapePlain(part);
    hide Unescape, Plain;
    var component := Object([Field(part, Null)]);
    var names := Object([Field(name, component)]);
    var tokens := [category, name, part];
    assert tokens[1..] == [name, part] && tokens[1..][1..] == [part] && tokens[1..][1..][1..] == [];
    WalkStep(Object([Field(category, names)]), tokens);
    WalkStep(names, [name, part]);
    WalkStep(component, [part]);
    WalkNothing(Null);
    assert [name, part][1..] == [part] && [part][1..] == [];
  }

  lemma DeepNames(path: string, category: string, name: string, part: string)
    requires path == "/auth/me" && category == "schemas" && name == "Fare" && part == "properties"
    ensures Commercial(path) && path != "$ref" && category != "$ref" && name != "$ref" && part != "$ref" && category != SECURITY
    ensures Plain(category) && Plain(name) && Plain(part)
  {
    assert path[0] == '/' && category[0] == 's' && name[0] == 'F' && part[0] == 'p' && category[1] == 'c' && SECURITY[1] == 'e';
  }

  // A path that refers to the properties of a component and to nothing else is published without the
  // component, so its reference no longer resolves.
  lemma DeepReferenceLost(doc: PublicDoc)
    requires Publishes(OneDeepReference("/auth/me", "schemas", "Fare", "properties"), doc)
    ensures var full, reference := OneDeepReference("/auth/me", "schemas", "Fare", "properties"), DeepReference("schemas", "Fare", "properties");
            && COMPONENTS <= reference && RefIn(doc, reference)
            && Pointer(full, reference[1..]).Some? && !Resolves(doc, reference)
  {
    hide Publishes, OneDeepReference, DeepReference, Commercial, Plain, RefIn, Resolves, Pointer;
    DeepNames("/auth/me", "schemas", "Fare", "properties");
    DeepLostIn(doc, "/auth/me", "schemas", "Fare", "properties");
  }
}
