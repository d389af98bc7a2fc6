/**
 The structural check of an operation schema (packages/plugin-runtime/src/jsonSchema.ts:120-171): an
 explicit stack visits the document, and the check accepts exactly the documents a recursive reading does.
 */
module SchemaBounds {
  import opened Results
  import opened CanonicalJson

  const MAX_NODES := 20_000
  const MAX_DEPTH := 64
  const DRAFT_2020_12 := "https://json-schema.org/draft/2020-12/schema"
  const HASH_SIGN: CodeUnit := 0x23

  /** A value on the stack; `None` is the value `undefined`. */
  datatype Item = Item(value: Option<Json>, depth: nat)

  // ---------------------------------------------------------------- the recursive reading

  function Nodes(v: Json): nat
    decreases v
  {
    match v
    case Arr(items) => 1 + NodesOfItems(items)
    case Obj(members) => 1 + NodesOfMembers(members)
    case _ => 1
  }

  function NodesOfItems(items: seq<Json>): nat
    decreases items
  {
    if items == [] then 0 else Nodes(items[0]) + NodesOfItems(items[1..])
  }

  function NodesOfMembers(members: seq<Member>): nat
    decreases members
  {
    if members == [] then 0 else
      (if members[0].value.Some? then Nodes(members[0].value.value) else 1) + NodesOfMembers(members[1..])
  }

  function NodesOf(v: Option<Json>): nat
  {
    if v.Some? then Nodes(v.value) else 1
  }

  /** References stay inside the document (section 8.2.3 of JSON Schema Core, draft 2020-12). */
  predicate ReferenceIsLocal(m: Member)
  {
    m.key == Utf16("$ref") || m.key == Utf16("$dynamicRef") ==>
      m.value.Some? && m.value.value.Str? && m.value.value.text != [] && m.value.value.text[0] == HASH_SIGN
  }

  /** At a depth: nothing lies too deep, and every reference is local. */
  predicate Fits(v: Json, depth: nat)
    decreases v
  {
    && depth <= MAX_DEPTH
    && match v
       case Arr(items) => forall i :: 0 <= i < |items| ==> Fits(items[i], depth + 1)
       case Obj(members) =>
         forall i :: 0 <= i < |members| ==>
           && ReferenceIsLocal(members[i])
           && if members[i].value.Some? then Fits(members[i].value.value, depth + 1) else depth < MAX_DEPTH
       case _ => true
  }

  predicate ItemFits(i: Item)
  {
    if i.value.Some? then Fits(i.value.value, i.depth) else i.depth <= MAX_DEPTH
  }

  predicate DeclaresDraft(schema: Json)
  {
    schema.Obj? && exists i :: 0 <= i < |schema.members| && schema.members[i] == Member(Utf16("$schema"), Some(Str(Utf16(DRAFT_2020_12))))
  }

  predicate IsBoundedSchema(schema: Json)
  {
    DeclaresDraft(schema) && Nodes(schema) <= MAX_NODES && Fits(schema, 0)
  }

  // ---------------------------------------------------------------- the stack

  function Total(pending: seq<Item>): nat
  {
    if pending == [] then 0 else Total(pending[..|pending| - 1]) + NodesOf(pending[|pending| - 1].value)
  }

  predicate AllFit(pending: seq<Item>)
  {
    forall i :: 0 <= i < |pending| ==> ItemFits(pending[i])
  }

  lemma {:induction false} TotalOfConcat(a: seq<Item>, b: seq<Item>)
    ensures Total(a + b) == Total(a) + Total(b)
  {
    if b == [] {
      assert a + b == a;
    } else {
      assert (a + b)[..|a + b| - 1] == a + b[..|b| - 1];
      TotalOfConcat(a, b[..|b| - 1]);
    }
  }

  function OfItems(items: seq<Json>, depth: nat): seq<Item>
  {
    seq(|items|, i requires 0 <= i < |items| => Item(Some(items[i]), depth))
  }

  function OfMembers(members: seq<Member>, depth: nat): seq<Item>
  {
    seq(|members|, i requires 0 <= i < |members| => Item(members[i].value, depth))
  }

  lemma {:induction false} TotalOfItems(items: seq<Json>, depth: nat)
    ensures Total(OfItems(items, depth)) == NodesOfItems(items)
  {
    if items != [] {
      TotalOfItems(items[1..], depth);
      assert OfItems(items, depth) == [Item(Some(items[0]), depth)] + OfItems(items[1..], depth);
      TotalOfConcat([Item(Some(items[0]), depth)], OfItems(items[1..], depth));
      assert Total([Item(Some(items[0]), depth)][..0]) == 0;
    }
  }

  lemma {:induction false} TotalOfMembers(members: seq<Member>, depth: nat)
    ensures Total(OfMembers(members, depth)) == NodesOfMembers(members)
  {
    if members != [] {
      TotalOfMembers(members[1..], depth);
      assert OfMembers(members, depth) == [Item(members[0].value, depth)] + OfMembers(members[1..], depth);
      TotalOfConcat([Item(members[0].value, depth)], OfMembers(members[1..], depth));
      assert Total([Item(members[0].value, depth)][..0]) == 0;
    }
  }

  lemma FitsArray(items: seq<Json>, depth: nat)
    requires depth <= MAX_DEPTH
    ensures Fits(Arr(items), depth) <==> AllFit(OfItems(items, depth + 1))
  {
    var pushed := OfItems(items, depth + 1);
    assert forall i :: 0 <= i < |items| ==> pushed[i] == Item(Some(items[i]), depth + 1);
    if AllFit(pushed) {
      forall i | 0 <= i < |items| ensures Fits(items[i], depth + 1) {
        assert ItemFits(pushed[i]);
      }
    }
  }

  lemma FitsObject(members: seq<Member>, depth: nat)
    requires depth <= MAX_DEPTH
    ensures Fits(Obj(members), depth) <==>
              AllFit(OfMembers(members, depth + 1)) && forall i :: 0 <= i < |members| ==> ReferenceIsLocal(members[i])
  {
    var pushed := OfMembers(members, depth + 1);
    assert forall i :: 0 <= i < |members| ==> pushed[i] == Item(members[i].value, depth + 1);
    if AllFit(pushed) {
      forall i | 0 <= i < |members|
        ensures if members[i].value.Some? then Fits(members[i].value.value, depth + 1) else depth < MAX_DEPTH
      {
        assert ItemFits(pushed[i]);
      }
    }
  }

  lemma AllFitOfConcat(a: seq<Item>, b: seq<Item>)
    ensures AllFit(a + b) <==> AllFit(a) && AllFit(b)
  {
    if AllFit(a + b) {
      forall i | 0 <= i < |a| ensures ItemFits(a[i]) { assert (a + b)[i] == a[i]; }
      forall i | 0 <= i < |b| ensures ItemFits(b[i]) { assert (a + b)[|a| + i] == b[i]; }
    }
  }

  /** Taking the top item off the stack. */
  lemma PopAccounts(pending: seq<Item>)
    requires pending != []
    ensures var rest, top := pending[..|pending| - 1], pending[|pending| - 1];
            && Total(pending) == Total(rest) + NodesOf(top.value)
            && (AllFit(pending) <==> AllFit(rest) && ItemFits(top))
  {
    var rest, top := pending[..|pending| - 1], pending[|pending| - 1];
    assert pending == rest + [top];
    AllFitOfConcat(rest, [top]);
    assert AllFit([top]) <==> ItemFits([top][0]);
  }

  method PushItems(pending: seq<Item>, items: seq<Json>, depth: nat) returns (pushed: seq<Item>)
    ensures pushed == pending + OfItems(items, depth)
  {
    pushed := pending;
    var n := 0;
    while n < |items|
      invariant 0 <= n <= |items| && pushed == pending + OfItems(items, depth)[..n]
    {
      pushed := pushed + [Item(Some(items[n]), depth)];
      n := n + 1;
    }
  }

  /** The loop over an object's entries stops at the first reference that leaves the document. */
  method PushMembers(pending: seq<Item>, members: seq<Member>, depth: nat) returns (pushed: seq<Item>, local: bool)
    ensures local <==> forall i :: 0 <= i < |members| ==> ReferenceIsLocal(members[i])
    ensures local ==> pushed == pending + OfMembers(members, depth)
  {
    hide Utf16;
    pushed, local := pending, true;
    var n := 0;
    while n < |members|
      invariant 0 <= n <= |members| && pushed == pending + OfMembers(members, depth)[..n]
      invariant forall i :: 0 <= i < n ==> ReferenceIsLocal(members[i])
    {
      if !ReferenceIsLocal(members[n]) {
        return pushed, false;
      }
      pushed := pushed + [Item(members[n].value, depth)];
      n := n + 1;
    }
  }

  /** `assertBoundedSelfContainedSchema`: it returns exactly for the bounded schemas, and throws for all others. */
  method CheckSchema(schema: Json) returns (accepted: bool)
    ensures accepted <==> IsBoundedSchema(schema)
  {
    hide DeclaresDraft, Nodes, Fits, AllFit, Total, ReferenceIsLocal, OfItems, OfMembers;
    if !DeclaresDraft(schema) {
      return false;
    }
    var pending := [Item(Some(schema), 0)];
    var nodes := 0;
    FirstItem(schema);
    while pending != []
      invariant nodes + Total(pending) == Nodes(schema) && nodes <= MAX_NODES
      invariant AllFit(pending) <==> Fits(schema, 0)
      decreases Total(pending), |pending|
    {
      PopAccounts(pending);
      var current := pending[|pending| - 1];
      EveryItemCounts(current);
      pending := pending[..|pending| - 1];
      nodes := nodes + 1;
      if nodes > MAX_NODES || current.depth > MAX_DEPTH {
        TooDeep(current);
        return false;
      }
      match current.value {
        case Some(Arr(items)) =>
          ArrayAccounts(pending, items, current.depth);
          pending := PushItems(pending, items, current.depth + 1);
        case Some(Obj(members)) =>
          ObjectAccounts(pending, members, current.depth);
          var local;
          pending, local := PushMembers(pending, members, current.depth + 1);
          if !local {
            return false;
          }
        case _ => ScalarAccounts(current);
      }
    }
    NothingPending();
    accepted := true;
  }

  lemma FirstItem(schema: Json)
    ensures Total([Item(Some(schema), 0)]) == Nodes(schema)
    ensures AllFit([Item(Some(schema), 0)]) <==> Fits(schema, 0)
  {
    PopAccounts([Item(Some(schema), 0)]);
  }

  lemma NothingPending()
    ensures Total([]) == 0 && AllFit([])
  {
  }

  lemma EveryItemCounts(i: Item)
    ensures NodesOf(i.value) >= 1
  {
  }

  lemma TooDeep(i: Item)
    ensures i.depth > MAX_DEPTH ==> !ItemFits(i)
  {
  }

  lemma ScalarAccounts(i: Item)
    requires i.depth <= MAX_DEPTH && !(i.value.Some? && (i.value.value.Arr? || i.value.value.Obj?))
    ensures NodesOf(i.value) == 1 && ItemFits(i)
  {
  }

  lemma ArrayAccounts(pending: seq<Item>, items: seq<Json>, depth: nat)
    requires depth <= MAX_DEPTH
    ensures Total(pending + OfItems(items, depth + 1)) + 1 == Total(pending) + Nodes(Arr(items))
    ensures AllFit(pending + OfItems(items, depth + 1)) <==> AllFit(pending) && Fits(Arr(items), depth)
  {
    hide OfItems;
    TotalOfConcat(pending, OfItems(items, depth + 1));
    TotalOfItems(items, depth + 1);
    AllFitOfConcat(pending, OfItems(items, depth + 1));
    FitsArray(items, depth);
  }

  lemma ObjectAccounts(pending: seq<Item>, members: seq<Member>, depth: nat)
    requires depth <= MAX_DEPTH
    ensures Total(pending + OfMembers(members, depth + 1)) + 1 == Total(pending) + Nodes(Obj(members))
    ensures Fits(Obj(members), depth) ==> forall i :: 0 <= i < |members| ==> ReferenceIsLocal(members[i])
    ensures (forall i :: 0 <= i < |members| ==> ReferenceIsLocal(members[i])) ==>
              (AllFit(pending + OfMembers(members, depth + 1)) <==> AllFit(pending) && Fits(Obj(members), depth))
  {
    hide OfMembers, ReferenceIsLocal;
    TotalOfConcat(pending, OfMembers(members, depth + 1));
    TotalOfMembers(members, depth + 1);
    AllFitOfConcat(pending, OfMembers(members, depth + 1));
    FitsObject(members, depth);
  }

  // ---------------------------------------------------------------- what is accepted, told of every value inside

  /** The value that lies in another one under a sequence of child numbers; `None` is the value `undefined`. */
  predicate LiesAt(root: Json, path: seq<nat>, v: Option<Json>)
    decreases |path|
  {
    if path == [] then v == Some(root)
    else
      match root
      case Arr(items) => path[0] < |items| && LiesAt(items[path[0]], path[1..], v)
      case Obj(members) =>
        path[0] < |members|
        && (if members[path[0]].value.Some? then LiesAt(members[path[0]].value.value, path[1..], v) else path[1..] == [] && v == None)
      case _ => false
  }

  /** No reference of an object leads out of the document: each is a string that begins with a hash sign. */
  ghost predicate RefersInside(v: Option<Json>)
  {
    v.Some? && v.value.Obj? ==>
      forall i :: 0 <= i < |v.value.members| && v.value.members[i].key in {Utf16("$ref"), Utf16("$dynamicRef")} ==>
        var target := v.value.members[i].value;
        target.Some? && target.value.Str? && target.value.text != [] && target.value.text[0] == '#' as int
  }

  ghost predicate IsWellPlaced(path: seq<nat>, v: Option<Json>, depth: nat)
  {
    depth + |path| <= 64 && RefersInside(v)
  }

  lemma LocalMembersReferInside(members: seq<Member>)
    ensures RefersInside(Some(Obj(members))) <==> forall i :: 0 <= i < |members| ==> ReferenceIsLocal(members[i])
  {
    hide Utf16;
  }

  lemma {:induction false} FittingIsWellPlaced(root: Json, depth: nat, path: seq<nat>, v: Option<Json>)
    requires Fits(root, depth) && LiesAt(root, path, v)
    ensures IsWellPlaced(path, v, depth)
    decreases |path|
  {
    hide Utf16, ReferenceIsLocal, RefersInside;
    if root.Obj? {
      LocalMembersReferInside(root.members);
    }
    if path == [] {
      ScalarsReferNowhere(v);
    } else {
      match root {
        case Arr(items) => FittingIsWellPlaced(items[path[0]], depth + 1, path[1..], v);
        case Obj(members) =>
          ScalarsReferNowhere(v);
          if members[path[0]].value.Some? {
            FittingIsWellPlaced(members[path[0]].value.value, depth + 1, path[1..], v);
          }
      }
    }
  }

  lemma ScalarsReferNowhere(v: Option<Json>)
    ensures v.None? || !v.value.Obj? ==> RefersInside(v)
  {
  }

  lemma {:induction false} MisfitIsMisplaced(root: Json, depth: nat) returns (path: seq<nat>, v: Option<Json>)
    requires !Fits(root, depth)
    ensures LiesAt(root, path, v) && !IsWellPlaced(path, v, depth)
    decreases root
  {
    hide Utf16, ReferenceIsLocal, RefersInside;
    path, v := [], Some(root);
    if depth <= 64 {
      match root {
        case Arr(items) =>
          var i: nat :| i < |items| && !Fits(items[i], depth + 1);
          path, v := MisfitIsMisplaced(items[i], depth + 1);
          Deeper(root, i, items[i], path, v);
          path := [i] + path;
        case Obj(members) =>
          LocalMembersReferInside(members);
          if i: nat :| i < |members| && members[i].value.Some? && !Fits(members[i].value.value, depth + 1) {
            path, v := MisfitIsMisplaced(members[i].value.value, depth + 1);
            Deeper(root, i, members[i].value.value, path, v);
            path := [i] + path;
          } else if i: nat :| i < |members| && members[i].value.None? && depth >= MAX_DEPTH {
            path, v := [i], None;
          }
      }
    }
  }

  lemma Deeper(root: Json, i: nat, child: Json, path: seq<nat>, v: Option<Json>)
    requires LiesAt(child, path, v)
    requires (root.Arr? && i < |root.items| && root.items[i] == child)
             || (root.Obj? && i < |root.members| && root.members[i].value == Some(child))
    ensures LiesAt(root, [i] + path, v)
  {
    assert ([i] + path)[1..] == path;
  }

  /** A schema is accepted exactly when it declares the draft, has at most 20 000 values, and all of them are well placed. */
  lemma BoundedMeans(schema: Json)
    ensures IsBoundedSchema(schema) <==>
              && (schema.Obj? && Member(Utf16("$schema"), Some(Str(Utf16("https://json-schema.org/draft/2020-12/schema")))) in schema.members)
              && Nodes(schema) <= 20_000
              && forall path, v :: LiesAt(schema, path, v) ==> |path| <= 64 && RefersInside(v)
  {
    hide Utf16, Fits, RefersInside, LiesAt;
    if Fits(schema, 0) {
      forall path, v | LiesAt(schema, path, v) ensures |path| <= 64 && RefersInside(v) {
        FittingIsWellPlaced(schema, 0, path, v);
      }
    } else {
      var path, v := MisfitIsMisplaced(schema, 0);
    }
  }
}
