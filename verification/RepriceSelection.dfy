// RePrice selection (src/reprice_selection.rs): the flat list of segment references a client sends is
// parsed back into one direction option per route.
module RepriceSelection {
  import opened Wrappers
  import opened Json

  datatype Selection = Selection(indices: seq<nat>, publicRefs: seq<string>, supplierRefs: seq<string>, directions: seq<Value>)

  function SegmentRef(segment: Value): Option<string> {
    var text := AsText(Member(segment, "segmentCodeRef"));
    if text == Some("") then None else text
  }

  function SegmentRefs(segments: seq<Value>): Option<seq<string>> {
    if segments == [] then Some([])
    else
      var first := SegmentRef(segments[0]);
      var rest := SegmentRefs(segments[1..]);
      if first.Some? && rest.Some? then Some([first.value] + rest.value) else None
  }

  // The references of one direction; none when it has no segments or one of them has no reference.
  function Refs(direction: Value): (refs: Option<seq<string>>)
    ensures refs.Some? ==> refs.value != []
  {
    var segments := AsArray(Member(direction, "segments"));
    if segments.None? || segments.value == [] then None else SegmentRefs(segments.value)
  }

  // The option's references begin what is still to be parsed.
  predicate Begins(option: Value, rest: seq<string>) {
    Refs(option).Some? && Refs(option).value <= rest
  }

  function Matching(options: seq<Value>, rest: seq<string>): (matches: seq<nat>)
    ensures forall i :: 0 <= i < |matches| ==> matches[i] < |options| && Begins(options[matches[i]], rest)
    ensures forall k :: 0 <= k < |options| && Begins(options[k], rest) ==> k in matches
    ensures forall i, j :: 0 <= i < j < |matches| ==> matches[i] < matches[j]
  {
    if options == [] then []
    else
      var n := |options| - 1;
      var earlier := Matching(options[..n], rest);
      if Begins(options[n], rest) then earlier + [n] else earlier
  }

  // One route: the only option that begins the rest, provided the supplier's copy has as many segments.
  function Choose(group: Value, originals: Value, rest: seq<string>): (index: Option<nat>)
    ensures index.Some? ==>
              && group.Array? && originals.Array? && |group.items| == |originals.items|
              && index.value < |group.items| && Begins(group.items[index.value], rest)
  {
    if !group.Array? || !originals.Array? || |group.items| != |originals.items| then None
    else
      var matches := Matching(group.items, rest);
      if |matches| != 1 then None
      else
        var refs := Refs(originals.items[matches[0]]);
        if refs.None? || |refs.value| != |Refs(group.items[matches[0]]).value| then None
        else Some(matches[0])
  }

  function Parse(groups: seq<Value>, sources: seq<Value>, rest: seq<string>): Option<seq<nat>>
    requires |groups| == |sources|
  {
    if groups == [] then if rest == [] then Some([]) else None
    else
      var index := Choose(groups[0], sources[0], rest);
      if index.None? then None
      else
        var later := Parse(groups[1..], sources[1..], rest[|Refs(groups[0].items[index.value]).value|..]);
        if later.None? then None else Some([index.value] + later.value)
  }

  // ---- What a selection means ------------------------------------------------------------------------

  // Some option of every route, each with its references.
  predicate IsChoice(groups: seq<Value>, indices: seq<nat>) {
    && |indices| == |groups|
    && forall g :: 0 <= g < |groups| ==> Offers(groups[g], indices[g])
  }

  predicate Offers(group: Value, index: nat) {
    group.Array? && index < |group.items| && Refs(group.items[index]).Some?
  }

  function Flattened(groups: seq<Value>, indices: seq<nat>): seq<string>
    requires IsChoice(groups, indices)
  {
    if groups == [] then []
    else Refs(groups[0].items[indices[0]]).value + Flattened(groups[1..], indices[1..])
  }

  // At every route no second option begins the rest of the list.
  predicate Unambiguous(groups: seq<Value>, indices: seq<nat>)
    requires IsChoice(groups, indices)
    decreases |groups|
  {
    groups == [] ||
    (&& (forall k :: 0 <= k < |groups[0].items| && Begins(groups[0].items[k], Flattened(groups, indices)) ==> k == indices[0])
     && Unambiguous(groups[1..], indices[1..]))
  }

  // The supplier's tree has the same options and as many references in each chosen one.
  predicate Mirrors(groups: seq<Value>, sources: seq<Value>, indices: seq<nat>)
    requires IsChoice(groups, indices) && |sources| == |groups|
  {
    forall g :: 0 <= g < |groups| ==>
      && sources[g].Array? && |sources[g].items| == |groups[g].items|
      && Refs(sources[g].items[indices[g]]).Some?
      && |Refs(sources[g].items[indices[g]]).value| == |Refs(groups[g].items[indices[g]]).value|
  }

  predicate PrefixFree(group: Value) {
    group.Array? ==>
      forall i, j :: 0 <= i < |group.items| && 0 <= j < |group.items| && i != j && Refs(group.items[i]).Some? && Refs(group.items[j]).Some? ==>
        !(Refs(group.items[i]).value <= Refs(group.items[j]).value)
  }

  lemma {:induction false} ParseSound(groups: seq<Value>, sources: seq<Value>, rest: seq<string>)
    requires |groups| == |sources| && Parse(groups, sources, rest).Some?
    ensures var indices := Parse(groups, sources, rest).value;
            && IsChoice(groups, indices) && Flattened(groups, indices) == rest
            && Mirrors(groups, sources, indices) && Unambiguous(groups, indices)
  {
    if groups != [] {
      var index := Choose(groups[0], sources[0], rest).value;
      var chosen := Refs(groups[0].items[index]).value;
      ParseSound(groups[1..], sources[1..], rest[|chosen|..]);
      var indices := Parse(groups, sources, rest).value;
      assert indices[1..] == Parse(groups[1..], sources[1..], rest[|chosen|..]).value;
      assert rest == chosen + rest[|chosen|..];
      assert IsChoice(groups, indices) by {
        forall g | 0 <= g < |groups| ensures Offers(groups[g], indices[g]) {
          if g > 0 {
            assert groups[g] == groups[1..][g - 1] && indices[g] == indices[1..][g - 1];
          }
        }
      }
      assert Mirrors(groups, sources, indices) by {
        forall g | 0 <= g < |groups|
          ensures sources[g].Array? && |sources[g].items| == |groups[g].items|
               && Refs(sources[g].items[indices[g]]).Some?
               && |Refs(sources[g].items[indices[g]]).value| == |Refs(groups[g].items[indices[g]]).value|
        {
          if g > 0 {
            assert groups[g] == groups[1..][g - 1] && indices[g] == indices[1..][g - 1] && sources[g] == sources[1..][g - 1];
          }
        }
      }
      var matches := Matching(groups[0].items, rest);
      assert matches == [index];
    }
  }

  lemma ChoiceTail(groups: seq<Value>, indices: seq<nat>)
    requires groups != [] && IsChoice(groups, indices)
    ensures IsChoice(groups[1..], indices[1..])
  {
    forall g | 0 <= g < |groups| - 1 ensures Offers(groups[1..][g], indices[1..][g]) {
      assert Offers(groups[g + 1], indices[g + 1]);
    }
  }

  lemma MirrorsTail(groups: seq<Value>, sources: seq<Value>, indices: seq<nat>)
    requires groups != [] && |groups| == |sources| && IsChoice(groups, indices) && Mirrors(groups, sources, indices)
    requires IsChoice(groups[1..], indices[1..])
    ensures Mirrors(groups[1..], sources[1..], indices[1..])
  {
    forall g | 0 <= g < |groups| - 1
      ensures sources[1..][g].Array? && |sources[1..][g].items| == |groups[1..][g].items|
           && Refs(sources[1..][g].items[indices[1..][g]]).Some?
           && |Refs(sources[1..][g].items[indices[1..][g]]).value| == |Refs(groups[1..][g].items[indices[1..][g]]).value|
    {
      assert sources[1..][g] == sources[g + 1] && groups[1..][g] == groups[g + 1] && indices[1..][g] == indices[g + 1];
    }
  }

  lemma ChooseFinds(group: Value, originals: Value, rest: seq<string>, index: nat)
    requires group.Array? && originals.Array? && |group.items| == |originals.items| && index < |group.items|
    requires Begins(group.items[index], rest)
    requires forall k :: 0 <= k < |group.items| && Begins(group.items[k], rest) ==> k == index
    requires Refs(originals.items[index]).Some? && |Refs(originals.items[index]).value| == |Refs(group.items[index]).value|
    ensures Choose(group, originals, rest) == Some(index)
  {
    OnlyMatch(group.items, rest, index);
    hide Matching, Refs;
  }

  lemma {:induction false} ParseFinds(groups: seq<Value>, sources: seq<Value>, indices: seq<nat>)
    requires |groups| == |sources| && IsChoice(groups, indices)
    requires Mirrors(groups, sources, indices) && Unambiguous(groups, indices)
    ensures Parse(groups, sources, Flattened(groups, indices)) == Some(indices)
  {
    if groups != [] {
      ChoiceTail(groups, indices);
      MirrorsTail(groups, sources, indices);
      ParseFinds(groups[1..], sources[1..], indices[1..]);
      var rest := Flattened(groups, indices);
      assert Offers(groups[0], indices[0]);
      var chosen := Refs(groups[0].items[indices[0]]).value;
      assert rest[|chosen|..] == Flattened(groups[1..], indices[1..]);
      ChooseFinds(groups[0], sources[0], rest, indices[0]);
      assert [indices[0]] + indices[1..] == indices;
      hide Choose, Refs, Mirrors;
    }
  }

  lemma {:induction false} NoMatch(options: seq<Value>, rest: seq<string>)
    requires forall k :: 0 <= k < |options| ==> !Begins(options[k], rest)
    ensures Matching(options, rest) == []
  {
    if options != [] {
      NoMatch(options[..|options| - 1], rest);
    }
  }

  lemma {:induction false} OnlyMatch(options: seq<Value>, rest: seq<string>, index: nat)
    requires index < |options| && Begins(options[index], rest)
    requires forall k :: 0 <= k < |options| && Begins(options[k], rest) ==> k == index
    ensures Matching(options, rest) == [index]
  {
    var n := |options| - 1;
    if index < n {
      OnlyMatch(options[..n], rest, index);
    } else {
      NoMatch(options[..n], rest);
    }
  }

  // Two different parses of one list cannot both be unambiguous.
  lemma {:induction false} UnambiguousIsUnique(groups: seq<Value>, indices: seq<nat>, others: seq<nat>)
    requires IsChoice(groups, indices) && IsChoice(groups, others) && Unambiguous(groups, indices)
    requires Flattened(groups, indices) == Flattened(groups, others)
    ensures indices == others
  {
    if groups != [] {
      ChoiceTail(groups, indices);
      ChoiceTail(groups, others);
      assert Offers(groups[0], indices[0]) && Offers(groups[0], others[0]);
      var rest := Flattened(groups, others);
      assert Begins(groups[0].items[others[0]], rest);
      assert indices[0] == others[0];
      var chosen := Refs(groups[0].items[indices[0]]).value;
      assert Flattened(groups[1..], indices[1..]) == rest[|chosen|..];
      assert Flattened(groups[1..], others[1..]) == rest[|chosen|..];
      UnambiguousIsUnique(groups[1..], indices[1..], others[1..]);
      assert indices == [indices[0]] + indices[1..] && others == [others[0]] + others[1..];
    }
  }

  lemma PrefixesComparable(a: seq<string>, b: seq<string>, whole: seq<string>)
    requires a <= whole && b <= whole
    ensures a <= b || b <= a
  {
    assert a == whole[..|a|] && b == whole[..|b|];
  }

  // With prefix-free options every choice is unambiguous.
  lemma {:induction false} PrefixFreeUnambiguous(groups: seq<Value>, indices: seq<nat>)
    requires IsChoice(groups, indices)
    requires forall g :: 0 <= g < |groups| ==> PrefixFree(groups[g])
    ensures Unambiguous(groups, indices)
  {
    if groups != [] {
      ChoiceTail(groups, indices);
      PrefixFreeUnambiguous(groups[1..], indices[1..]);
      assert Offers(groups[0], indices[0]);
      var rest := Flattened(groups, indices);
      var chosen := Refs(groups[0].items[indices[0]]).value;
      assert chosen <= rest;
      forall k | 0 <= k < |groups[0].items| && Begins(groups[0].items[k], rest) ensures k == indices[0] {
        var refs := Refs(groups[0].items[k]).value;
        assert PrefixFree(groups[0]);
        PrefixesComparable(refs, chosen, rest);
      }
    }
  }

  function SupplierRefs(sources: seq<Value>, indices: seq<nat>): seq<string> {
    if sources == [] || |indices| < |sources| then []
    else
      var n := |sources| - 1;
      var earlier := SupplierRefs(sources[..n], indices[..n]);
      if Offers(sources[n], indices[n]) then earlier + Refs(sources[n].items[indices[n]]).value else earlier
  }

  function Groups(tree: Value): Option<seq<Value>> {
    AsArray(Member(tree, "directions"))
  }

  // The shape the search and supplier trees must share before any parsing.
  predicate Shaped(original: Value, selling: Value, requested: seq<string>) {
    && Groups(selling).Some? && Groups(original).Some?
    && Groups(selling).value != [] && |Groups(selling).value| == |Groups(original).value|
    && requested != []
  }

  predicate Describes(selection: Selection, original: Value, requested: seq<string>, indices: seq<nat>) {
    && Groups(original).Some?
    && selection.indices == indices
    && selection.publicRefs == requested
    && selection.supplierRefs == SupplierRefs(Groups(original).value, indices)
    && |selection.directions| == |Groups(original).value| == |indices|
    && forall g :: 0 <= g < |indices| ==>
         && Groups(original).value[g].Array? && indices[g] < |Groups(original).value[g].items|
         && selection.directions[g] == Array([Groups(original).value[g].items[indices[g]]])
  }

  function ChosenOptions(sources: seq<Value>, indices: seq<nat>): (directions: seq<Value>)
    ensures |directions| == |indices|
  {
    seq(|indices|, g requires 0 <= g < |indices| =>
      if g < |sources| && sources[g].Array? && indices[g] < |sources[g].items| then Array([sources[g].items[indices[g]]]) else Null)
  }

  function Selected(original: Value, selling: Value, requested: seq<string>): Option<Selection> {
    if !Shaped(original, selling, requested) then None
    else
      var indices := Parse(Groups(selling).value, Groups(original).value, requested);
      if indices.None? then None
      else Some(Selection(indices.value, requested, SupplierRefs(Groups(original).value, indices.value),
                          ChosenOptions(Groups(original).value, indices.value)))
  }

  // Continuing a parse whose first routes chose `indices`.
  function After(indices: seq<nat>, later: Option<seq<nat>>): Option<seq<nat>> {
    if later.None? then None else Some(indices + later.value)
  }

  lemma AfterNothing(later: Option<seq<nat>>)
    ensures After([], later) == later
  {
    if later.Some? {
      assert [] + later.value == later.value;
    }
  }

  lemma AfterAll(indices: seq<nat>)
    ensures After(indices, Some([])) == Some(indices)
  {
    assert indices + [] == indices;
  }

  // What one more route of the loop does to the parse of everything.
  lemma ParseStep(public: seq<Value>, source: seq<Value>, g: nat, requested: seq<string>, offset: nat, before: seq<nat>)
    requires |public| == |source| && g < |public| && offset <= |requested|
    ensures var index := Choose(public[g], source[g], requested[offset..]);
            var here := Parse(public[g..], source[g..], requested[offset..]);
            if index.None? then here.None?
            else
              var n := |Refs(public[g].items[index.value]).value|;
              && offset + n <= |requested|
              && After(before, here) ==
                 After(before + [index.value], Parse(public[g + 1..], source[g + 1..], requested[offset + n..]))
  {
    var rest := requested[offset..];
    assert public[g..][1..] == public[g + 1..] && source[g..][1..] == source[g + 1..];
    var index := Choose(public[g], source[g], rest);
    if index.Some? {
      var n := |Refs(public[g].items[index.value]).value|;
      assert rest[n..] == requested[offset + n..];
      var later := Parse(public[g + 1..], source[g + 1..], requested[offset + n..]);
      if later.Some? {
        assert before + ([index.value] + later.value) == before + [index.value] + later.value;
      }
    }
  }

  lemma SupplierRefsMore(source: seq<Value>, g: nat, before: seq<nat>, index: nat)
    requires g < |source| && |before| == g && Offers(source[g], index)
    ensures SupplierRefs(source[..g + 1], before + [index]) == SupplierRefs(source[..g], before) + Refs(source[g].items[index]).value
  {
    assert source[..g + 1][..g] == source[..g] && (before + [index])[..g] == before;
  }

  method Select(original: Value, selling: Value, requested: seq<string>) returns (selection: Option<Selection>)
    ensures selection.Some? <==>
            Shaped(original, selling, requested) && Parse(Groups(selling).value, Groups(original).value, requested).Some?
    ensures selection.Some? ==>
              Describes(selection.value, original, requested, Parse(Groups(selling).value, Groups(original).value, requested).value)
    ensures selection == Selected(original, selling, requested)
  {
    hide Parse, SupplierRefs, Refs, After;
    var groups, sources := Groups(selling), Groups(original);
    if groups.None? || sources.None? {
      return None;
    }
    var public, source := groups.value, sources.value;
    if public == [] || |public| != |source| || requested == [] {
      return None;
    }
    var offset: nat := 0;
    var indices: seq<nat> := [];
    var directions: seq<Value> := [];
    var supplierRefs: seq<string> := [];
    assert public[0..] == public && source[0..] == source && requested[0..] == requested;
    AfterNothing(Parse(public, source, requested));
    NoRefs(source[..0]);
    for g := 0 to |public|
      invariant offset <= |requested| && |indices| == |directions| == g
      invariant Parse(public, source, requested) == After(indices, Parse(public[g..], source[g..], requested[offset..]))
      invariant forall k :: 0 <= k < g ==>
                  && Offers(source[k], indices[k])
                  && directions[k] == Array([source[k].items[indices[k]]])
      invariant supplierRefs == SupplierRefs(source[..g], indices)
    {
      ParseStep(public, source, g, requested, offset, indices);
      NothingAfterFailure(indices, Parse(public[g..], source[g..], requested[offset..]));
      if !public[g].Array? || !source[g].Array? || |public[g].items| != |source[g].items| {
        return None;
      }
      var matches := Matching(public[g].items, requested[offset..]);
      if |matches| != 1 {
        return None;
      }
      var index := matches[0];
      var chosen := Refs(public[g].items[index]).value;
      var refs := Refs(source[g].items[index]);
      if refs.None? || |refs.value| != |chosen| {
        return None;
      }
      SupplierRefsMore(source, g, indices, index);
      offset := offset + |chosen|;
      indices := indices + [index];
      supplierRefs := supplierRefs + refs.value;
      directions := directions + [Array([source[g].items[index]])];
    }
    assert public[|public|..] == [] && source[|source|..] == [];
    ParseNothing(requested[offset..]);
    NothingAfterFailure(indices, Parse([], [], requested[offset..]));
    if offset != |requested| {
      return None;
    }
    AfterAll(indices);
    assert source[..|source|] == source;
    assert directions == ChosenOptions(source, indices);
    selection := Some(Selection(indices, requested, supplierRefs, directions));
  }

  lemma NoRefs(source: seq<Value>)
    requires source == []
    ensures SupplierRefs(source, []) == []
  {
  }

  lemma NothingAfterFailure(indices: seq<nat>, later: Option<seq<nat>>)
    ensures After(indices, later).None? <==> later.None?
  {
  }

  lemma ParseNothing(rest: seq<string>)
    ensures Parse([], [], rest) == if rest == [] then Some([]) else None
  {
  }

  // ---- Main results ------------------------------------------------------------------------------------

  // A selection exists exactly when some choice of one option per route flattens to the request, no
  // route leaves a second option possible, and the supplier tree mirrors it; and then it is that one.
  lemma SelectsExactlyTheUnambiguous(groups: seq<Value>, sources: seq<Value>, requested: seq<string>, indices: seq<nat>)
    requires |groups| == |sources|
    ensures Parse(groups, sources, requested) == Some(indices) <==>
            (&& IsChoice(groups, indices) && Flattened(groups, indices) == requested
             && Mirrors(groups, sources, indices) && Unambiguous(groups, indices))
  {
    if Parse(groups, sources, requested) == Some(indices) {
      ParseSound(groups, sources, requested);
    }
    if IsChoice(groups, indices) && Flattened(groups, indices) == requested && Mirrors(groups, sources, indices) && Unambiguous(groups, indices) {
      ParseFinds(groups, sources, indices);
    }
  }

  // The one reading of a request: options that make it up, that nothing else in the routes could begin,
  // and that the supplier's tree mirrors.
  ghost predicate Chooses(original: Value, selling: Value, requested: seq<string>, indices: seq<nat>) {
    && Groups(selling).Some? && Groups(original).Some?
    && var groups, sources := Groups(selling).value, Groups(original).value;
       && |groups| == |sources| && groups != [] && requested != []
       && IsChoice(groups, indices) && Flattened(groups, indices) == requested
       && Mirrors(groups, sources, indices) && Unambiguous(groups, indices)
  }

  lemma SelectedExactlyWhen(original: Value, selling: Value, requested: seq<string>)
    ensures Selected(original, selling, requested).Some? <==> exists indices :: Chooses(original, selling, requested, indices)
    ensures Selected(original, selling, requested).Some? ==>
              var selection := Selected(original, selling, requested).value;
              && Chooses(original, selling, requested, selection.indices)
              && Describes(selection, original, requested, selection.indices)
  {
    hide Parse, IsChoice, Flattened, Mirrors, Unambiguous, SupplierRefs, Refs;
    if Shaped(original, selling, requested) {
      var groups, sources := Groups(selling).value, Groups(original).value;
      forall indices ensures Chooses(original, selling, requested, indices) <==> Parse(groups, sources, requested) == Some(indices) {
        SelectsExactlyTheUnambiguous(groups, sources, requested, indices);
      }
      if Parse(groups, sources, requested).Some? {
        ChoiceDescribed(groups, sources, Parse(groups, sources, requested).value);
      }
    }
  }

  lemma ChoiceDescribed(groups: seq<Value>, sources: seq<Value>, indices: seq<nat>)
    requires |groups| == |sources| && IsChoice(groups, indices) && Mirrors(groups, sources, indices)
    ensures |indices| == |sources|
    ensures forall g :: 0 <= g < |indices| ==>
              && sources[g].Array? && indices[g] < |sources[g].items|
              && ChosenOptions(sources, indices)[g] == Array([sources[g].items[indices[g]]])
  {
    forall g | 0 <= g < |indices|
      ensures sources[g].Array? && indices[g] < |sources[g].items|
           && ChosenOptions(sources, indices)[g] == Array([sources[g].items[indices[g]]])
    {
      assert Offers(groups[g], indices[g]);
    }
    hide Refs;
  }

  // The request splits in no other way, and the supplier gets as many references as the client sent.
  lemma SelectionIsTheOnlyOne(groups: seq<Value>, sources: seq<Value>, requested: seq<string>, others: seq<nat>)
    requires |groups| == |sources| && Parse(groups, sources, requested).Some?
    requires IsChoice(groups, others) && Flattened(groups, others) == requested
    ensures Parse(groups, sources, requested) == Some(others)
    ensures |SupplierRefs(sources, others)| == |requested|
  {
    ParseSound(groups, sources, requested);
    UnambiguousIsUnique(groups, Parse(groups, sources, requested).value, others);
    SupplierRefsLength(groups, sources, others);
  }

  lemma {:induction false} FlattenedLast(groups: seq<Value>, indices: seq<nat>)
    requires groups != [] && IsChoice(groups, indices)
    ensures var n := |groups| - 1;
            && IsChoice(groups[..n], indices[..n])
            && Offers(groups[n], indices[n])
            && Flattened(groups, indices) == Flattened(groups[..n], indices[..n]) + Refs(groups[n].items[indices[n]]).value
  {
    var n := |groups| - 1;
    assert Offers(groups[n], indices[n]);
    assert IsChoice(groups[..n], indices[..n]) by {
      forall g | 0 <= g < n ensures Offers(groups[..n][g], indices[..n][g]) {
        assert Offers(groups[g], indices[g]);
      }
    }
    if n > 0 {
      ChoiceTail(groups, indices);
      FlattenedLast(groups[1..], indices[1..]);
      assert groups[1..][..n - 1] == groups[..n][1..] && indices[1..][..n - 1] == indices[..n][1..];
    }
  }

  lemma {:induction false} SupplierRefsLength(groups: seq<Value>, sources: seq<Value>, indices: seq<nat>)
    requires |groups| == |sources| && IsChoice(groups, indices) && Mirrors(groups, sources, indices)
    ensures |SupplierRefs(sources, indices)| == |Flattened(groups, indices)|
  {
    if groups != [] {
      var n := |groups| - 1;
      FlattenedLast(groups, indices);
      SupplierRefsLength(groups[..n], sources[..n], indices[..n]);
    }
  }

  // With prefix-free options flattening any choice and selecting gives the choice back.
  lemma FlattenThenSelect(groups: seq<Value>, sources: seq<Value>, indices: seq<nat>)
    requires |groups| == |sources| && IsChoice(groups, indices) && Mirrors(groups, sources, indices)
    requires forall g :: 0 <= g < |groups| ==> PrefixFree(groups[g])
    ensures Parse(groups, sources, Flattened(groups, indices)) == Some(indices)
  {
    PrefixFreeUnambiguous(groups, indices);
    ParseFinds(groups, sources, indices);
  }
}
