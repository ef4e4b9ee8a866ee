/**
  The compressed checkbox selection of the import dialog in web/app.js: everything, whole
  constructions, whole objects or single estimates are kept instead of the set of leaves.
 */
module ImportSelection {
  import opened Wrappers

  datatype Obj = Obj(id: string, construction: string)
  datatype Est = Est(id: string, parent: string)
  datatype Tree = Tree(constructions: seq<string>, objects: seq<Obj>, estimates: seq<Est>)

  datatype Sel = Sel(all: bool, constructions: set<string>, objects: set<string>, estimates: set<string>)
  const NOTHING := Sel(false, {}, {}, {})

  datatype Node = All | Construction(id: string) | Object(id: string) | Estimate(id: string)
  datatype Click = Click(node: Node, checked: bool)

  // --- the tree -------------------------------------------------------------

  /** state.objects.find((item) => item.id === id), from position i on */
  function FindObject(tree: Tree, id: string, i: nat): (k: nat)
    requires i <= |tree.objects|
    ensures i <= k <= |tree.objects|
    ensures k < |tree.objects| ==> tree.objects[k].id == id
    ensures forall j :: i <= j < k ==> tree.objects[j].id != id
    decreases |tree.objects| - i
  {
    if i == |tree.objects| || tree.objects[i].id == id then i else FindObject(tree, id, i + 1)
  }

  function FindEstimate(tree: Tree, id: string, i: nat): (k: nat)
    requires i <= |tree.estimates|
    ensures i <= k <= |tree.estimates|
    ensures k < |tree.estimates| ==> tree.estimates[k].id == id
    ensures forall j :: i <= j < k ==> tree.estimates[j].id != id
    decreases |tree.estimates| - i
  {
    if i == |tree.estimates| || tree.estimates[i].id == id then i else FindEstimate(tree, id, i + 1)
  }

  /** Ids are unique, those of estimates not empty. Parents may be missing. */
  predicate UniqueIds(tree: Tree) {
    && (forall i, j :: 0 <= i < j < |tree.objects| ==> tree.objects[i].id != tree.objects[j].id)
    && (forall i, j :: 0 <= i < j < |tree.estimates| ==> tree.estimates[i].id != tree.estimates[j].id)
    && (forall i :: 0 <= i < |tree.estimates| ==> tree.estimates[i].id != "")
  }

  function ObjectIds(tree: Tree, construction: string): set<string> {
    set i | 0 <= i < |tree.objects| && tree.objects[i].construction == construction :: tree.objects[i].id
  }

  function EstimateIds(tree: Tree, objects: set<string>): set<string> {
    set i | 0 <= i < |tree.estimates| && tree.estimates[i].parent in objects :: tree.estimates[i].id
  }

  /** collectEstimateIdsForScope; filter(Boolean) drops empty ids */
  function UnderIds(tree: Tree, node: Node): set<string> {
    match node
    case All => (set i | 0 <= i < |tree.estimates| :: tree.estimates[i].id) - {""}
    case Construction(c) => EstimateIds(tree, ObjectIds(tree, c)) - {""}
    case Object(o) => EstimateIds(tree, {o}) - {""}
    case Estimate(e) => if FindEstimate(tree, e, 0) < |tree.estimates| then {e} else {}
  }

  /** userPositionImportConstructions: the constructions that have estimates */
  function ListedConstructions(tree: Tree): set<string> {
    set c | c in tree.constructions && UnderIds(tree, Construction(c)) != {}
  }

  // --- the selection --------------------------------------------------------

  function Expanded(tree: Tree, sel: Sel): Sel {
    if sel.all then Sel(false, sel.constructions + ListedConstructions(tree), {}, {}) else sel
  }

  function ApplyConstruction(tree: Tree, sel: Sel, id: string, checked: bool): Sel {
    var s := Expanded(tree, sel);
    Sel(false, if checked then s.constructions + {id} else s.constructions - {id},
        s.objects - ObjectIds(tree, id), s.estimates - EstimateIds(tree, ObjectIds(tree, id)))
  }

  function ApplyObject(tree: Tree, sel: Sel, id: string, checked: bool): Sel {
    var k := FindObject(tree, id, 0);
    if k == |tree.objects| then sel
    else
      var c := tree.objects[k].construction;
      var s := Expanded(tree, sel);
      var s1 := if c in s.constructions
                then s.(constructions := s.constructions - {c}, objects := s.objects + (ObjectIds(tree, c) - {id}))
                else s;
      s1.(objects := if checked then s1.objects + {id} else s1.objects - {id},
          estimates := s1.estimates - EstimateIds(tree, {id}))
  }

  function ApplyEstimate(tree: Tree, sel: Sel, id: string, checked: bool): Sel {
    var i := FindEstimate(tree, id, 0);
    if i == |tree.estimates| then sel
    else
      var o := tree.estimates[i].parent;
      var k := FindObject(tree, o, 0);
      if k == |tree.objects| then sel
      else
        var c := tree.objects[k].construction;
        var s := Expanded(tree, sel);
        var siblings := EstimateIds(tree, {o}) - {id};
        var s1 :=
          if c in s.constructions
          then s.(constructions := s.constructions - {c}, objects := s.objects + (ObjectIds(tree, c) - {o}),
                  estimates := s.estimates + siblings)
          else if o in s.objects
          then s.(objects := s.objects - {o}, estimates := s.estimates + siblings)
          else s;
        s1.(estimates := if checked then s1.estimates + {id} else s1.estimates - {id})
  }

  /** applyUserPositionImportSelection */
  function Apply(tree: Tree, sel: Sel, click: Click): Sel {
    match click.node
    case All => Sel(click.checked, {}, {}, {})
    case Construction(id) => ApplyConstruction(tree, sel, id, click.checked)
    case Object(id) => ApplyObject(tree, sel, id, click.checked)
    case Estimate(id) => ApplyEstimate(tree, sel, id, click.checked)
  }

  /** collectUserPositionImportEstimateIds */
  function Collect(tree: Tree, sel: Sel): set<string> {
    if sel.all then UnderIds(tree, All)
    else ConstructionLeaves(tree, sel.constructions) + ObjectLeaves(tree, sel.objects) + sel.estimates
  }

  function ConstructionLeaves(tree: Tree, constructions: set<string>): set<string> {
    set c, e | c in constructions && e in UnderIds(tree, Construction(c)) :: e
  }

  function ObjectLeaves(tree: Tree, objects: set<string>): set<string> {
    set o, e | o in objects && e in UnderIds(tree, Object(o)) :: e
  }

  // --- one estimate at a time -----------------------------------------------

  /** The construction of the estimate's object, if there is such an object. */
  function ConstructionOf(tree: Tree, i: nat): Option<string>
    requires i < |tree.estimates|
  {
    var k := FindObject(tree, tree.estimates[i].parent, 0);
    if k < |tree.objects| then Some(tree.objects[k].construction) else None
  }

  predicate InConstructions(tree: Tree, i: nat, constructions: set<string>)
    requires i < |tree.estimates|
  {
    ConstructionOf(tree, i).Some? && ConstructionOf(tree, i).value in constructions
  }

  /** The estimate's object or that object's construction is missing. */
  predicate Orphan(tree: Tree, i: nat)
    requires i < |tree.estimates|
  {
    ConstructionOf(tree, i).Some? ==> ConstructionOf(tree, i).value !in tree.constructions
  }

  function Orphans(tree: Tree): set<string> {
    set i | 0 <= i < |tree.estimates| && Orphan(tree, i) :: tree.estimates[i].id
  }

  predicate Selected(tree: Tree, sel: Sel, i: nat)
    requires i < |tree.estimates|
  {
    var e := tree.estimates[i];
    sel.all || InConstructions(tree, i, sel.constructions) || e.parent in sel.objects || e.id in sel.estimates
  }

  predicate Under(tree: Tree, node: Node, i: nat)
    requires i < |tree.estimates|
  {
    match node
    case All => true
    case Construction(c) => ConstructionOf(tree, i) == Some(c)
    case Object(o) => tree.estimates[i].parent == o
    case Estimate(e) => tree.estimates[i].id == e
  }

  /** Other clicks are ignored. */
  predicate Answered(tree: Tree, node: Node) {
    match node
    case All => true
    case Construction(c) => true
    case Object(o) => FindObject(tree, o, 0) < |tree.objects|
    case Estimate(e) => FindEstimate(tree, e, 0) < |tree.estimates| && ConstructionOf(tree, FindEstimate(tree, e, 0)).Some?
  }

  lemma InObjectIds(tree: Tree, i: nat, c: string)
    requires UniqueIds(tree) && i < |tree.estimates|
    ensures tree.estimates[i].parent in ObjectIds(tree, c) <==> ConstructionOf(tree, i) == Some(c)
  {
  }

  lemma InEstimateIds(tree: Tree, i: nat, objects: set<string>)
    requires UniqueIds(tree) && i < |tree.estimates|
    ensures tree.estimates[i].id in EstimateIds(tree, objects) <==> tree.estimates[i].parent in objects
  {
  }

  lemma UnderIsUnder(tree: Tree, node: Node, i: nat)
    requires UniqueIds(tree) && i < |tree.estimates|
    ensures tree.estimates[i].id in UnderIds(tree, node) <==> Under(tree, node, i)
  {
  }

  lemma UnderIdsKnown(tree: Tree, node: Node, id: string)
    requires UniqueIds(tree) && id in UnderIds(tree, node)
    ensures exists i :: 0 <= i < |tree.estimates| && tree.estimates[i].id == id
  {
  }

  lemma CollectIsSelected(tree: Tree, sel: Sel, i: nat)
    requires UniqueIds(tree) && i < |tree.estimates|
    ensures tree.estimates[i].id in Collect(tree, sel) <==> Selected(tree, sel, i)
  {
    var e := tree.estimates[i];
    UnderIsUnder(tree, All, i);
    forall c ensures e.id in UnderIds(tree, Construction(c)) <==> ConstructionOf(tree, i) == Some(c) {
      UnderIsUnder(tree, Construction(c), i);
    }
    forall o ensures e.id in UnderIds(tree, Object(o)) <==> e.parent == o {
      UnderIsUnder(tree, Object(o), i);
    }
    assert e.id in ConstructionLeaves(tree, sel.constructions) <==> InConstructions(tree, i, sel.constructions) by {
      if ConstructionOf(tree, i).Some? {
        assert e.id in UnderIds(tree, Construction(ConstructionOf(tree, i).value));
      }
    }
    assert e.id in ObjectLeaves(tree, sel.objects) <==> e.parent in sel.objects by {
      assert e.id in UnderIds(tree, Object(e.parent));
    }
  }

  // --- invariant ------------------------------------------------------------

  /** The two halves of the canonical form, for one object and for one estimate. */
  predicate ObjectOk(tree: Tree, sel: Sel, k: nat)
    requires k < |tree.objects|
  {
    tree.objects[k].id in sel.objects ==> tree.objects[k].construction !in sel.constructions
  }

  predicate EstimateOk(tree: Tree, sel: Sel, i: nat)
    requires UniqueIds(tree) && i < |tree.estimates|
  {
    tree.estimates[i].id in sel.estimates ==>
      tree.estimates[i].parent !in sel.objects && !InConstructions(tree, i, sel.constructions)
  }

  /** No selected node lies below a selected node. */
  predicate Canonical(tree: Tree, sel: Sel)
    requires UniqueIds(tree)
  {
    && (sel.all ==> sel == Sel(true, {}, {}, {}))
    && (forall k :: 0 <= k < |tree.objects| ==> ObjectOk(tree, sel, k))
    && (forall i :: 0 <= i < |tree.estimates| ==> EstimateOk(tree, sel, i))
    && (forall id :: id in sel.estimates ==> FindEstimate(tree, id, 0) < |tree.estimates|)
  }

  lemma CanonicalFacts(tree: Tree, sel: Sel)
    requires UniqueIds(tree) && Canonical(tree, sel)
    ensures forall k :: 0 <= k < |tree.objects| && tree.objects[k].id in sel.objects ==>
      tree.objects[k].construction !in sel.constructions
    ensures forall i :: 0 <= i < |tree.estimates| && tree.estimates[i].id in sel.estimates ==>
      tree.estimates[i].parent !in sel.objects && !InConstructions(tree, i, sel.constructions)
  {
    forall k | 0 <= k < |tree.objects| && tree.objects[k].id in sel.objects
      ensures tree.objects[k].construction !in sel.constructions
    {
      assert ObjectOk(tree, sel, k);
    }
    forall i | 0 <= i < |tree.estimates| && tree.estimates[i].id in sel.estimates
      ensures tree.estimates[i].parent !in sel.objects && !InConstructions(tree, i, sel.constructions)
    {
      assert EstimateOk(tree, sel, i);
    }
  }

  lemma ExpandedSame(tree: Tree, sel: Sel)
    requires UniqueIds(tree) && Canonical(tree, sel)
    ensures Canonical(tree, Expanded(tree, sel)) && !Expanded(tree, sel).all
    ensures forall i :: 0 <= i < |tree.estimates| ==>
      Selected(tree, Expanded(tree, sel), i) == (Selected(tree, sel, i) && !(sel.all && Orphan(tree, i)))
  {
    forall i | 0 <= i < |tree.estimates|
      ensures InConstructions(tree, i, ListedConstructions(tree)) <==> !Orphan(tree, i)
    {
      ListedUnlessOrphan(tree, i);
    }
  }

  lemma ListedUnlessOrphan(tree: Tree, i: nat)
    requires UniqueIds(tree) && i < |tree.estimates|
    ensures InConstructions(tree, i, ListedConstructions(tree)) <==> !Orphan(tree, i)
  {
    if !Orphan(tree, i) {
      UnderIsUnder(tree, Construction(ConstructionOf(tree, i).value), i);
    }
  }

  /** Still selected when the click is handled: leaving "everything" drops the orphans. */
  predicate Stays(tree: Tree, before: Sel, node: Node, i: nat)
    requires i < |tree.estimates|
  {
    Selected(tree, before, i) && !(before.all && !node.All? && Orphan(tree, i))
  }

  /** What one click must do to one estimate. */
  predicate Refines(tree: Tree, before: Sel, click: Click, after: Sel, i: nat)
    requires UniqueIds(tree) && i < |tree.estimates|
  {
    Selected(tree, after, i) ==
      if click.checked then Stays(tree, before, click.node, i) || Under(tree, click.node, i)
      else Stays(tree, before, click.node, i) && !Under(tree, click.node, i)
  }

  lemma ConstructionClick(tree: Tree, sel: Sel, id: string, checked: bool)
    requires UniqueIds(tree) && Canonical(tree, sel)
    ensures var click := Click(Construction(id), checked);
      Canonical(tree, Apply(tree, sel, click))
      && forall i :: 0 <= i < |tree.estimates| ==> Refines(tree, sel, click, Apply(tree, sel, click), i)
  {
    ExpandedSame(tree, sel);
    CanonicalFacts(tree, Expanded(tree, sel));
    forall i | 0 <= i < |tree.estimates|
      ensures tree.estimates[i].parent in ObjectIds(tree, id) <==> ConstructionOf(tree, i) == Some(id)
      ensures tree.estimates[i].id in EstimateIds(tree, ObjectIds(tree, id)) <==> ConstructionOf(tree, i) == Some(id)
    {
      InObjectIds(tree, i, id);
      InEstimateIds(tree, i, ObjectIds(tree, id));
    }
  }

  /** Membership in the two id sets an object click prunes and adds. */
  lemma ObjectClickIds(tree: Tree, id: string, c: string)
    requires UniqueIds(tree)
    ensures forall i :: 0 <= i < |tree.estimates| ==>
      (tree.estimates[i].parent in ObjectIds(tree, c) <==> ConstructionOf(tree, i) == Some(c))
    ensures forall i :: 0 <= i < |tree.estimates| ==>
      (tree.estimates[i].id in EstimateIds(tree, {id}) <==> tree.estimates[i].parent == id)
  {
    forall i | 0 <= i < |tree.estimates|
      ensures tree.estimates[i].parent in ObjectIds(tree, c) <==> ConstructionOf(tree, i) == Some(c)
      ensures tree.estimates[i].id in EstimateIds(tree, {id}) <==> tree.estimates[i].parent == id
    {
      InObjectIds(tree, i, c);
      InEstimateIds(tree, i, {id});
    }
  }

  lemma ObjectClickRefines(tree: Tree, sel: Sel, id: string, checked: bool)
    requires UniqueIds(tree) && Canonical(tree, sel) && FindObject(tree, id, 0) < |tree.objects|
    ensures var click := Click(Object(id), checked);
      forall i :: 0 <= i < |tree.estimates| ==> Refines(tree, sel, click, Apply(tree, sel, click), i)
  {
    ExpandedSame(tree, sel);
    CanonicalFacts(tree, Expanded(tree, sel));
    var k := FindObject(tree, id, 0);
    if k < |tree.objects| {
      ObjectClickIds(tree, id, tree.objects[k].construction);
    }
  }

  lemma ObjectClickCanonical(tree: Tree, sel: Sel, id: string, checked: bool)
    requires UniqueIds(tree) && Canonical(tree, sel)
    ensures Canonical(tree, Apply(tree, sel, Click(Object(id), checked)))
  {
    ExpandedSame(tree, sel);
    CanonicalFacts(tree, Expanded(tree, sel));
    var k := FindObject(tree, id, 0);
    if k < |tree.objects| {
      ObjectClickIds(tree, id, tree.objects[k].construction);
    }
  }

  lemma EstimateClickObject(tree: Tree, sel: Sel, id: string, checked: bool, k: nat)
    requires UniqueIds(tree) && Canonical(tree, sel) && k < |tree.objects|
    ensures ObjectOk(tree, ApplyEstimate(tree, sel, id, checked), k)
  {
    ExpandedSame(tree, sel);
    CanonicalFacts(tree, Expanded(tree, sel));
  }

  lemma EstimateClickEstimate(tree: Tree, sel: Sel, id: string, checked: bool, i: nat)
    requires UniqueIds(tree) && Canonical(tree, sel) && i < |tree.estimates|
    ensures EstimateOk(tree, ApplyEstimate(tree, sel, id, checked), i)
  {
    ExpandedSame(tree, sel);
    CanonicalFacts(tree, Expanded(tree, sel));
    var x := FindEstimate(tree, id, 0);
    if x < |tree.estimates| && ConstructionOf(tree, x).Some? {
      InObjectIds(tree, i, ConstructionOf(tree, x).value);
      InEstimateIds(tree, i, {tree.estimates[x].parent});
    }
  }

  lemma EstimateClickCanonical(tree: Tree, sel: Sel, id: string, checked: bool)
    requires UniqueIds(tree) && Canonical(tree, sel)
    ensures Canonical(tree, Apply(tree, sel, Click(Estimate(id), checked)))
  {
    var after := ApplyEstimate(tree, sel, id, checked);
    forall k | 0 <= k < |tree.objects| ensures ObjectOk(tree, after, k) {
      EstimateClickObject(tree, sel, id, checked, k);
    }
    forall i | 0 <= i < |tree.estimates| ensures EstimateOk(tree, after, i) {
      EstimateClickEstimate(tree, sel, id, checked, i);
    }
    forall e | e in after.estimates ensures FindEstimate(tree, e, 0) < |tree.estimates| {
      EstimateClickKnown(tree, sel, id, checked, e);
    }
  }

  lemma EstimateClickKnown(tree: Tree, sel: Sel, id: string, checked: bool, e: string)
    requires UniqueIds(tree) && Canonical(tree, sel) && e in ApplyEstimate(tree, sel, id, checked).estimates
    ensures FindEstimate(tree, e, 0) < |tree.estimates|
  {
  }

  lemma EstimateClick(tree: Tree, sel: Sel, id: string, checked: bool, i: nat)
    requires UniqueIds(tree) && Canonical(tree, sel) && i < |tree.estimates|
    requires Answered(tree, Estimate(id))
    ensures var click := Click(Estimate(id), checked); Refines(tree, sel, click, Apply(tree, sel, click), i)
  {
    ExpandedSame(tree, sel);
    CanonicalFacts(tree, Expanded(tree, sel));
    var x := FindEstimate(tree, id, 0);
    if x < |tree.estimates| {
      InObjectIds(tree, i, ConstructionOf(tree, x).value);
      InEstimateIds(tree, i, {tree.estimates[x].parent});
      InObjectIds(tree, x, ConstructionOf(tree, x).value);
    }
  }

  lemma ClickEach(tree: Tree, sel: Sel, click: Click)
    requires UniqueIds(tree) && Canonical(tree, sel) && Answered(tree, click.node)
    ensures Canonical(tree, Apply(tree, sel, click))
    ensures forall i :: 0 <= i < |tree.estimates| ==> Refines(tree, sel, click, Apply(tree, sel, click), i)
  {
    match click.node
    case All =>
    case Construction(id) => ConstructionClick(tree, sel, id, click.checked);
    case Object(id) => ObjectClickCanonical(tree, sel, id, click.checked);
      ObjectClickRefines(tree, sel, id, click.checked);
    case Estimate(id) =>
      EstimateClickCanonical(tree, sel, id, click.checked);
      forall i | 0 <= i < |tree.estimates| ensures Refines(tree, sel, click, Apply(tree, sel, click), i) {
        EstimateClick(tree, sel, id, click.checked, i);
      }
  }

  /** What a click leaves of the selection: leaving "everything" by it drops the orphans. */
  function Kept(tree: Tree, sel: Sel, node: Node): set<string> {
    if sel.all && !node.All? then Collect(tree, sel) - Orphans(tree) else Collect(tree, sel)
  }

  /**
    On any tree, with missing parents or not: a click keeps the canonical form, and is ignored or
    changes exactly the leaves under its node, but for the orphans that "everything" held.
   */
  lemma ClickRefines(tree: Tree, sel: Sel, click: Click)
    requires UniqueIds(tree) && Canonical(tree, sel)
    ensures Canonical(tree, Apply(tree, sel, click))
    ensures !Answered(tree, click.node) ==> Apply(tree, sel, click) == sel
    ensures Answered(tree, click.node) ==>
      Collect(tree, Apply(tree, sel, click))
      == if click.checked then Kept(tree, sel, click.node) + UnderIds(tree, click.node)
         else Kept(tree, sel, click.node) - UnderIds(tree, click.node)
  {
    if Answered(tree, click.node) {
      ClickEach(tree, sel, click);
      LeavesFollow(tree, sel, click, Apply(tree, sel, click));
    }
  }

  lemma OrphanIds(tree: Tree, i: nat)
    requires UniqueIds(tree) && i < |tree.estimates|
    ensures tree.estimates[i].id in Orphans(tree) <==> Orphan(tree, i)
  {
  }

  lemma LeavesFollow(tree: Tree, sel: Sel, click: Click, after: Sel)
    requires UniqueIds(tree) && Canonical(tree, sel) && Canonical(tree, after)
    requires forall i :: 0 <= i < |tree.estimates| ==> Refines(tree, sel, click, after, i)
    ensures Collect(tree, after)
            == if click.checked then Kept(tree, sel, click.node) + UnderIds(tree, click.node)
               else Kept(tree, sel, click.node) - UnderIds(tree, click.node)
  {
    hide Collect;
    hide UnderIds;
    hide Orphans;
    hide Selected;
    hide Under;
    hide Orphan;
    CollectKnown(tree, sel);
    CollectKnown(tree, after);
    var expected := if click.checked then Kept(tree, sel, click.node) + UnderIds(tree, click.node)
                    else Kept(tree, sel, click.node) - UnderIds(tree, click.node);
    forall id ensures id in Collect(tree, after) <==> id in expected {
      var i := FindEstimate(tree, id, 0);
      if i < |tree.estimates| {
        CollectIsSelected(tree, sel, i);
        CollectIsSelected(tree, after, i);
        UnderIsUnder(tree, click.node, i);
        OrphanIds(tree, i);
        assert Refines(tree, sel, click, after, i);
      } else if id in UnderIds(tree, click.node) {
        UnderIdsKnown(tree, click.node, id);
      }
    }
  }

  lemma CollectKnown(tree: Tree, sel: Sel)
    requires UniqueIds(tree) && Canonical(tree, sel)
    ensures forall id :: id in Collect(tree, sel) ==> FindEstimate(tree, id, 0) < |tree.estimates|
  {
  }

  // --- runs -----------------------------------------------------------------

  function RunClicks(tree: Tree, clicks: seq<Click>): Sel {
    if clicks == [] then NOTHING
    else Apply(tree, RunClicks(tree, clicks[..|clicks| - 1]), clicks[|clicks| - 1])
  }

  /** The same clicks on a plain set of estimate ids. */
  function RunPlain(tree: Tree, clicks: seq<Click>): set<string> {
    if clicks == [] then {}
    else
      var before, click := RunPlain(tree, clicks[..|clicks| - 1]), clicks[|clicks| - 1];
      if click.checked then before + UnderIds(tree, click.node) else before - UnderIds(tree, click.node)
  }

  /** On a tree without orphans any clicks collect what the plain set of leaves would hold. */
  lemma {:induction false} ClicksRefinePlainSet(tree: Tree, clicks: seq<Click>)
    requires UniqueIds(tree)
    ensures Canonical(tree, RunClicks(tree, clicks))
    ensures Orphans(tree) == {} ==> Collect(tree, RunClicks(tree, clicks)) == RunPlain(tree, clicks)
  {
    hide Orphans;
    hide Collect;
    if clicks == [] {
      NothingCollected(tree);
    } else {
      var last := clicks[|clicks| - 1];
      ClicksRefinePlainSet(tree, clicks[..|clicks| - 1]);
      ClickRefines(tree, RunClicks(tree, clicks[..|clicks| - 1]), last);
      if Orphans(tree) == {} && !Answered(tree, last.node) { IgnoredIsEmpty(tree, last.node); }
    }
  }

  lemma NothingCollected(tree: Tree)
    ensures Collect(tree, NOTHING) == {}
  {
  }

  lemma NodeAnswered(tree: Tree, node: Node, i: nat)
    requires UniqueIds(tree) && i < |tree.estimates| && Under(tree, node, i) && !Orphan(tree, i)
    ensures Answered(tree, node)
  {
    if node.Estimate? { assert FindEstimate(tree, node.id, 0) == i; }
  }

  lemma IgnoredIsEmpty(tree: Tree, node: Node)
    requires UniqueIds(tree) && Orphans(tree) == {} && !Answered(tree, node)
    ensures UnderIds(tree, node) == {}
  {
    hide Answered;
    hide UnderIds;
    hide Under;
    hide Orphan;
    if id :| id in UnderIds(tree, node) {
      UnderIdsKnown(tree, node, id);
      var i :| 0 <= i < |tree.estimates| && tree.estimates[i].id == id;
      UnderIsUnder(tree, node, i);
      OrphanIds(tree, i);
      NodeAnswered(tree, node, i);
    }
  }

  // --- leaving the state "everything" -----------------------------------------

  /** The dialog shows a checkbox for the node. */
  predicate Shown(tree: Tree, node: Node) {
    match node
    case All => ListedConstructions(tree) != {}
    case Construction(c) => c in ListedConstructions(tree)
    case Object(o) =>
      var k := FindObject(tree, o, 0);
      k < |tree.objects| && tree.objects[k].construction in ListedConstructions(tree) && UnderIds(tree, node) != {}
    case Estimate(e) =>
      var i := FindEstimate(tree, e, 0);
      i < |tree.estimates| && InConstructions(tree, i, ListedConstructions(tree))
  }

  /** Estimate i stands in the dialog, below object k and its construction. */
  predicate Stands(tree: Tree, i: nat, k: nat) {
    && i < |tree.estimates| && k < |tree.objects| && tree.estimates[i].parent == tree.objects[k].id
    && tree.objects[k].construction in tree.constructions
  }

  predicate StandsUnder(tree: Tree, i: nat, k: nat, node: Node)
    requires Stands(tree, i, k)
  {
    match node
    case All => true
    case Construction(c) => tree.objects[k].construction == c
    case Object(o) => tree.objects[k].id == o
    case Estimate(e) => tree.estimates[i].id == e
  }

  ghost predicate SomethingUnder(tree: Tree, node: Node) {
    exists i: nat, k: nat :: Stands(tree, i, k) && StandsUnder(tree, i, k, node)
  }

  lemma ListedIff(tree: Tree, c: string)
    requires UniqueIds(tree)
    ensures c in ListedConstructions(tree) <==> SomethingUnder(tree, Construction(c))
  {
    if i: nat, k: nat :| Stands(tree, i, k) && tree.objects[k].construction == c {
      assert tree.objects[k].id in ObjectIds(tree, c);
      assert tree.estimates[i].id in UnderIds(tree, Construction(c));
    }
    if c in ListedConstructions(tree) {
      var e :| e in UnderIds(tree, Construction(c));
      var i: nat :| i < |tree.estimates| && tree.estimates[i].id == e && tree.estimates[i].parent in ObjectIds(tree, c);
      var k: nat :| k < |tree.objects| && tree.objects[k].construction == c && tree.objects[k].id == tree.estimates[i].parent;
      assert Stands(tree, i, k) && StandsUnder(tree, i, k, Construction(c));
    }
  }

  lemma ListedObject(tree: Tree, k: nat)
    requires UniqueIds(tree) && k < |tree.objects|
    ensures (exists i: nat :: Stands(tree, i, k)) ==> tree.objects[k].construction in ListedConstructions(tree)
    ensures tree.objects[k].construction in ListedConstructions(tree) ==> tree.objects[k].construction in tree.constructions
  {
    hide UnderIds;
    ListedIff(tree, tree.objects[k].construction);
    if i: nat :| Stands(tree, i, k) { assert StandsUnder(tree, i, k, Construction(tree.objects[k].construction)); }
  }

  lemma ObjectShownIff(tree: Tree, o: string)
    requires UniqueIds(tree)
    ensures Shown(tree, Object(o)) <==> SomethingUnder(tree, Object(o))
  {
    hide ListedConstructions;
    var f := FindObject(tree, o, 0);
    if f < |tree.objects| { ListedObject(tree, f); }
    if i: nat, k: nat :| Stands(tree, i, k) && tree.objects[k].id == o {
      assert f == k;
      assert tree.estimates[i].id in UnderIds(tree, Object(o));
    }
    if Shown(tree, Object(o)) {
      var e :| e in UnderIds(tree, Object(o));
      var i: nat :| i < |tree.estimates| && tree.estimates[i].id == e && tree.estimates[i].parent == o;
      assert Stands(tree, i, f) && StandsUnder(tree, i, f, Object(o));
    }
  }

  lemma EstimateShownIff(tree: Tree, e: string)
    requires UniqueIds(tree)
    ensures Shown(tree, Estimate(e)) <==> SomethingUnder(tree, Estimate(e))
  {
    hide ListedConstructions;
    var f := FindEstimate(tree, e, 0);
    if f < |tree.estimates| {
      var g := FindObject(tree, tree.estimates[f].parent, 0);
      if g < |tree.objects| { ListedObject(tree, g); }
    }
    if i: nat, k: nat :| Stands(tree, i, k) && tree.estimates[i].id == e {
      assert f == i;
      assert FindObject(tree, tree.objects[k].id, 0) == k;
    }
    if Shown(tree, Estimate(e)) {
      var g := FindObject(tree, tree.estimates[f].parent, 0);
      assert Stands(tree, f, g) && StandsUnder(tree, f, g, Estimate(e));
    }
  }

  /** The dialog shows exactly the nodes with an estimate under them whose object and construction are there. */
  lemma ShownIff(tree: Tree, node: Node)
    requires UniqueIds(tree)
    ensures Shown(tree, node) <==> SomethingUnder(tree, node)
  {
    hide ListedConstructions;
    match node
    case All =>
      if i: nat, k: nat :| Stands(tree, i, k) { ListedObject(tree, k); }
      if c :| c in ListedConstructions(tree) {
        ListedIff(tree, c);
        var i: nat, k: nat :| Stands(tree, i, k) && StandsUnder(tree, i, k, Construction(c));
        assert StandsUnder(tree, i, k, All);
      }
    case Construction(c) => ListedIff(tree, c);
    case Object(o) => ObjectShownIff(tree, o);
    case Estimate(e) => EstimateShownIff(tree, e);
  }

  const EVERYTHING := Sel(true, {}, {}, {})

  lemma ShownNoOrphans(tree: Tree, node: Node)
    requires UniqueIds(tree) && Shown(tree, node) && !node.All?
    ensures Answered(tree, node) && UnderIds(tree, node) !! Orphans(tree)
  {
    forall id | id in UnderIds(tree, node) ensures id !in Orphans(tree) {
      UnderIdsKnown(tree, node, id);
      var i :| 0 <= i < |tree.estimates| && tree.estimates[i].id == id;
      UnderIsUnder(tree, node, i);
      OrphanIds(tree, i);
      ListedUnlessOrphan(tree, i);
    }
  }

  lemma EverythingCollects(tree: Tree)
    requires UniqueIds(tree)
    ensures Canonical(tree, EVERYTHING) && Collect(tree, EVERYTHING) == UnderIds(tree, All)
    ensures Orphans(tree) <= UnderIds(tree, All)
  {
  }

  /**
    While everything is selected every shown box is checked, so a click unchecks it. The click
    keeps exactly the leaves outside its node if and only if no estimate is an orphan.
   */
  lemma AllExpandsFaithfullyIff(tree: Tree, node: Node)
    requires UniqueIds(tree) && Shown(tree, node) && !node.All?
    ensures Collect(tree, Apply(tree, EVERYTHING, Click(node, false)))
            == UnderIds(tree, All) - Orphans(tree) - UnderIds(tree, node)
    ensures Collect(tree, Apply(tree, EVERYTHING, Click(node, false))) == UnderIds(tree, All) - UnderIds(tree, node)
            <==> Orphans(tree) == {}
  {
    hide Apply;
    hide Collect;
    hide UnderIds;
    hide Orphans;
    hide Shown;
    hide Canonical;
    EverythingCollects(tree);
    ShownNoOrphans(tree, node);
    ClickRefines(tree, EVERYTHING, Click(node, false));
    if e :| e in Orphans(tree) {
      assert e in UnderIds(tree, All) - UnderIds(tree, node);
    }
  }

  predicate AllShown(tree: Tree, clicks: seq<Click>) {
    forall click :: click in clicks ==> Shown(tree, click.node)
  }

  /** The compressed selection is the plain set over all clicks of the dialog exactly when no estimate is an orphan. */
  lemma ClicksRefinePlainSetIff(tree: Tree)
    requires UniqueIds(tree) && ListedConstructions(tree) != {}
    ensures (forall clicks :: AllShown(tree, clicks) ==> Collect(tree, RunClicks(tree, clicks)) == RunPlain(tree, clicks))
            <==> Orphans(tree) == {}
  {
    hide Apply;
    hide Collect;
    hide UnderIds;
    hide Orphans;
    if Orphans(tree) == {} {
      forall clicks ensures Collect(tree, RunClicks(tree, clicks)) == RunPlain(tree, clicks) {
        ClicksRefinePlainSet(tree, clicks);
      }
    } else {
      var c :| c in ListedConstructions(tree);
      var all, one := Click(All, true), Click(Construction(c), false);
      AllExpandsFaithfullyIff(tree, Construction(c));
      AllThenOne(tree, all, one);
      assert AllShown(tree, [all, one]);
    }
  }

  lemma AllThenOne(tree: Tree, all: Click, one: Click)
    requires all == Click(All, true) && !one.checked
    ensures RunClicks(tree, [all, one]) == Apply(tree, EVERYTHING, one)
    ensures RunPlain(tree, [all, one]) == UnderIds(tree, All) - UnderIds(tree, one.node)
  {
    hide UnderIds;
    assert [all, one][..1] == [all] && [all][..0] == [];
    assert RunClicks(tree, [all]) == Apply(tree, RunClicks(tree, []), all) == EVERYTHING;
    assert RunPlain(tree, [all]) == RunPlain(tree, []) + UnderIds(tree, All);
  }

  // --- the dialog's state object --------------------------------------------

  function ObjectIdsUpTo(tree: Tree, c: string, n: nat): set<string>
    requires n <= |tree.objects|
  {
    set i | 0 <= i < n && tree.objects[i].construction == c :: tree.objects[i].id
  }

  function EstimateIdsUpTo(tree: Tree, o: string, n: nat): set<string>
    requires n <= |tree.estimates|
  {
    set i | 0 <= i < n && tree.estimates[i].parent == o :: tree.estimates[i].id
  }

  class ImportState {
    var all: bool
    var constructions: set<string>
    var objects: set<string>
    var estimates: set<string>

    ghost function Value(): Sel
      reads this
    {
      Sel(all, constructions, objects, estimates)
    }

    constructor ()
      ensures Value() == NOTHING
    {
      all, constructions, objects, estimates := false, {}, {}, {};
    }

    method PruneUnderObject(tree: Tree, o: string)
      modifies this`estimates
      ensures estimates == old(estimates) - EstimateIds(tree, {o})
    {
      for i := 0 to |tree.estimates|
        invariant estimates == old(estimates) - EstimateIdsUpTo(tree, o, i)
      {
        if tree.estimates[i].parent == o {
          estimates := estimates - {tree.estimates[i].id};
          assert EstimateIdsUpTo(tree, o, i + 1) == EstimateIdsUpTo(tree, o, i) + {tree.estimates[i].id};
        } else {
          assert EstimateIdsUpTo(tree, o, i + 1) == EstimateIdsUpTo(tree, o, i);
        }
      }
      assert EstimateIdsUpTo(tree, o, |tree.estimates|) == EstimateIds(tree, {o});
    }

    method PruneUnderConstruction(tree: Tree, c: string)
      modifies this`objects, this`estimates
      ensures objects == old(objects) - ObjectIds(tree, c)
      ensures estimates == old(estimates) - EstimateIds(tree, ObjectIds(tree, c))
    {
      for k := 0 to |tree.objects|
        invariant objects == old(objects) - ObjectIdsUpTo(tree, c, k)
        invariant estimates == old(estimates) - EstimateIds(tree, ObjectIdsUpTo(tree, c, k))
      {
        ghost var before := ObjectIdsUpTo(tree, c, k);
        if tree.objects[k].construction == c {
          var o := tree.objects[k].id;
          objects := objects - {o};
          PruneUnderObject(tree, o);
          assert ObjectIdsUpTo(tree, c, k + 1) == before + {o};
          assert EstimateIds(tree, before + {o}) == EstimateIds(tree, before) + EstimateIds(tree, {o});
        } else {
          assert ObjectIdsUpTo(tree, c, k + 1) == before;
        }
      }
      assert ObjectIdsUpTo(tree, c, |tree.objects|) == ObjectIds(tree, c);
    }

    method AddSiblingObjects(tree: Tree, c: string, except: string)
      modifies this`objects
      ensures objects == old(objects) + (ObjectIds(tree, c) - {except})
    {
      for k := 0 to |tree.objects|
        invariant objects == old(objects) + (ObjectIdsUpTo(tree, c, k) - {except})
      {
        ghost var before := ObjectIdsUpTo(tree, c, k);
        if tree.objects[k].construction == c && tree.objects[k].id != except {
          objects := objects + {tree.objects[k].id};
        }
        assert ObjectIdsUpTo(tree, c, k + 1)
               == before + if tree.objects[k].construction == c then {tree.objects[k].id} else {};
      }
      assert ObjectIdsUpTo(tree, c, |tree.objects|) == ObjectIds(tree, c);
    }

    method AddSiblingEstimates(tree: Tree, o: string, except: string)
      modifies this`estimates
      ensures estimates == old(estimates) + (EstimateIds(tree, {o}) - {except})
    {
      for i := 0 to |tree.estimates|
        invariant estimates == old(estimates) + (EstimateIdsUpTo(tree, o, i) - {except})
      {
        ghost var before := EstimateIdsUpTo(tree, o, i);
        if tree.estimates[i].parent == o && tree.estimates[i].id != except {
          estimates := estimates + {tree.estimates[i].id};
        }
        assert EstimateIdsUpTo(tree, o, i + 1)
               == before + if tree.estimates[i].parent == o then {tree.estimates[i].id} else {};
      }
      assert EstimateIdsUpTo(tree, o, |tree.estimates|) == EstimateIds(tree, {o});
    }

    method ExpandAll(tree: Tree)
      modifies this
      ensures Value() == if old(all) then Expanded(tree, old(Value())) else old(Value())
    {
      if all {
        for k := 0 to |tree.constructions|
          invariant all == old(all) && objects == old(objects) && estimates == old(estimates)
          invariant constructions == old(constructions)
            + (set c | c in tree.constructions[..k] && UnderIds(tree, Construction(c)) != {})
        {
          var c := tree.constructions[k];
          assert tree.constructions[..k + 1] == tree.constructions[..k] + [c];
          if UnderIds(tree, Construction(c)) != {} {
            constructions := constructions + {c};
          }
        }
        assert tree.constructions[..|tree.constructions|] == tree.constructions;
        objects, estimates, all := {}, {}, false;
      }
    }

    /** applyUserPositionImportSelection */
    method ApplySelection(tree: Tree, click: Click)
      modifies this
      ensures Value() == Apply(tree, old(Value()), click)
    {
      match click.node
      case All =>
        constructions, objects, estimates, all := {}, {}, {}, click.checked;
      case Construction(id) =>
        ExpandAll(tree);
        constructions := if click.checked then constructions + {id} else constructions - {id};
        PruneUnderConstruction(tree, id);
      case Object(id) =>
        var k := FindObject(tree, id, 0);
        if k == |tree.objects| { return; }
        ExpandAll(tree);
        var c := tree.objects[k].construction;
        if c in constructions {
          constructions := constructions - {c};
          AddSiblingObjects(tree, c, id);
        }
        objects := if click.checked then objects + {id} else objects - {id};
        PruneUnderObject(tree, id);
      case Estimate(id) =>
        var i := FindEstimate(tree, id, 0);
        if i == |tree.estimates| { return; }
        var o := tree.estimates[i].parent;
        var k := FindObject(tree, o, 0);
        if k == |tree.objects| { return; }
        ExpandAll(tree);
        var c := tree.objects[k].construction;
        if c in constructions {
          constructions := constructions - {c};
          AddSiblingObjects(tree, c, o);
          AddSiblingEstimates(tree, o, id);
        } else if o in objects {
          objects := objects - {o};
          AddSiblingEstimates(tree, o, id);
        }
        estimates := if click.checked then estimates + {id} else estimates - {id};
    }
  }
}
