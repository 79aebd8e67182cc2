/** The category hierarchy. Categories point to their parent; the views
    keep the parent links free of cycles, which the model records with a
    rank on every category that is strictly larger than its parent's. The
    functions here are the recursive walks of the source: the full path up
    the parents, check_descendants down the children, and the tree the
    category tree serializer emits. */
module Categories {
  import opened Common

  datatype Category = Category(
    name: string,
    slug: string,
    description: string,
    parent: Option<CategoryId>,
    isNewsStory: bool,
    isNewsBulletin: bool,
    isSport: bool,
    isFinance: bool,
    isSpecialty: bool)

  /** Every parent exists and ranks strictly below its children, so
      following parents always reaches a root. */
  ghost predicate Ranked(cats: map<CategoryId, Category>, rank: map<CategoryId, int>) {
    cats.Keys <= rank.Keys
    && forall c :: c in cats && cats[c].parent.Some? ==>
         cats[c].parent.value in cats && rank[cats[c].parent.value] < rank[c]
  }

  /** The categories ranked above c (the only ones that can lie below it). */
  ghost function Upper(cats: map<CategoryId, Category>, rank: map<CategoryId, int>, c: CategoryId): set<CategoryId>
    requires Ranked(cats, rank) && c in cats
  {
    set k | k in cats && rank[k] > rank[c]
  }

  /** The categories ranked below c (the only ones that can lie above it). */
  ghost function Lower(cats: map<CategoryId, Category>, rank: map<CategoryId, int>, c: CategoryId): set<CategoryId>
    requires Ranked(cats, rank) && c in cats
  {
    set k | k in cats && rank[k] < rank[c]
  }

  lemma ChildShrinksUpper(cats: map<CategoryId, Category>, rank: map<CategoryId, int>, c: CategoryId, d: CategoryId)
    requires Ranked(cats, rank) && c in cats && d in cats && cats[d].parent == Some(c)
    ensures Upper(cats, rank, d) < Upper(cats, rank, c)
  {
    assert d in Upper(cats, rank, c);
  }

  lemma ParentShrinksLower(cats: map<CategoryId, Category>, rank: map<CategoryId, int>, c: CategoryId)
    requires Ranked(cats, rank) && c in cats && cats[c].parent.Some?
    ensures cats[c].parent.value in cats
    ensures Lower(cats, rank, cats[c].parent.value) < Lower(cats, rank, c)
  {
    assert cats[c].parent.value in Lower(cats, rank, c);
  }

  /** Reference definition: c lies strictly above x on x's parent chain. */
  ghost predicate Below(cats: map<CategoryId, Category>, rank: map<CategoryId, int>, x: CategoryId, c: CategoryId)
    requires Ranked(cats, rank) && x in cats
    decreases Lower(cats, rank, x)
  {
    cats[x].parent.Some?
    && (cats[x].parent.value == c
        || (ParentShrinksLower(cats, rank, x); Below(cats, rank, cats[x].parent.value, c)))
  }

  /** The parent chain of c, from its root down to c itself. */
  function Ancestry(cats: map<CategoryId, Category>, ghost rank: map<CategoryId, int>, c: CategoryId)
    : (chain: seq<CategoryId>)
    requires Ranked(cats, rank) && c in cats
    ensures |chain| >= 1 && chain[|chain| - 1] == c
    ensures forall i :: 0 <= i < |chain| ==> chain[i] in cats
    ensures cats[chain[0]].parent == None
    ensures forall i :: 0 < i < |chain| ==> cats[chain[i]].parent == Some(chain[i - 1])
    decreases Lower(cats, rank, c)
  {
    match cats[c].parent
    case None => [c]
    case Some(p) =>
      ParentShrinksLower(cats, rank, c);
      Ancestry(cats, rank, p) + [c]
  }

  /** The names of a chain of categories joined with " > ", first to last. */
  function JoinNames(cats: map<CategoryId, Category>, chain: seq<CategoryId>): string
    requires |chain| >= 1 && forall i :: 0 <= i < |chain| ==> chain[i] in cats
  {
    if |chain| == 1 then cats[chain[0]].name
    else cats[chain[0]].name + " > " + JoinNames(cats, chain[1..])
  }

  lemma {:induction false} JoinNamesSnoc(cats: map<CategoryId, Category>, chain: seq<CategoryId>, c: CategoryId)
    requires |chain| >= 1 && (forall i :: 0 <= i < |chain| ==> chain[i] in cats) && c in cats
    ensures JoinNames(cats, chain + [c]) == JoinNames(cats, chain) + " > " + cats[c].name
    decreases |chain|
  {
    if |chain| > 1 {
      assert (chain + [c])[1..] == chain[1..] + [c];
      JoinNamesSnoc(cats, chain[1..], c);
    } else {
      assert (chain + [c])[1..] == [c];
    }
  }

  /** Category.full_path: a root's name, or the parent's full path, " > "
      and the name. */
  function FullPath(cats: map<CategoryId, Category>, ghost rank: map<CategoryId, int>, c: CategoryId): (path: string)
    requires Ranked(cats, rank) && c in cats
    ensures cats[c].parent == None ==> path == cats[c].name
    ensures |path| >= |cats[c].name| && path[|path| - |cats[c].name|..] == cats[c].name
    decreases Lower(cats, rank, c)
  {
    match cats[c].parent
    case None => cats[c].name
    case Some(p) =>
      ParentShrinksLower(cats, rank, c);
      FullPath(cats, rank, p) + " > " + cats[c].name
  }

  /** The full path names every category on the parent chain, root first. */
  lemma {:induction false} FullPathJoinsAncestry(cats: map<CategoryId, Category>, rank: map<CategoryId, int>, c: CategoryId)
    requires Ranked(cats, rank) && c in cats
    ensures FullPath(cats, rank, c) == JoinNames(cats, Ancestry(cats, rank, c))
    decreases Lower(cats, rank, c)
  {
    match cats[c].parent
    case None =>
    case Some(p) =>
      ParentShrinksLower(cats, rank, c);
      FullPathJoinsAncestry(cats, rank, p);
      JoinNamesSnoc(cats, Ancestry(cats, rank, p), c);
  }

  /** check_descendants(target, c) of category_edit: whether target is a
      child of c or, recursively, lies below one of c's children. */
  function CheckDescendants(cats: map<CategoryId, Category>, ghost rank: map<CategoryId, int>,
                            target: CategoryId, c: CategoryId): bool
    requires Ranked(cats, rank) && c in cats
    decreases Upper(cats, rank, c)
  {
    exists d :: d in cats && cats[d].parent == Some(c)
      && (d == target || (ChildShrinksUpper(cats, rank, c, d); CheckDescendants(cats, rank, target, d)))
  }

  lemma {:induction false} BelowThroughParent(cats: map<CategoryId, Category>, rank: map<CategoryId, int>,
                                              x: CategoryId, d: CategoryId, c: CategoryId)
    requires Ranked(cats, rank) && x in cats && d in cats
    requires Below(cats, rank, x, d) && cats[d].parent == Some(c)
    ensures Below(cats, rank, x, c)
    decreases Lower(cats, rank, x)
  {
    var p := cats[x].parent.value;
    ParentShrinksLower(cats, rank, x);
    if p != d {
      BelowThroughParent(cats, rank, p, d, c);
    } else {
      assert Below(cats, rank, p, c);
    }
  }

  lemma {:induction false} CheckDescendantsSound(cats: map<CategoryId, Category>, rank: map<CategoryId, int>,
                                                 t: CategoryId, c: CategoryId)
    requires Ranked(cats, rank) && c in cats
    requires CheckDescendants(cats, rank, t, c)
    ensures t in cats && Below(cats, rank, t, c)
    decreases Upper(cats, rank, c)
  {
    var d :| d in cats && cats[d].parent == Some(c)
      && (d == t || (ChildShrinksUpper(cats, rank, c, d); CheckDescendants(cats, rank, t, d)));
    if d != t {
      ChildShrinksUpper(cats, rank, c, d);
      CheckDescendantsSound(cats, rank, t, d);
      BelowThroughParent(cats, rank, t, d, c);
    }
  }

  lemma {:induction false} CheckDescendantsExtend(cats: map<CategoryId, Category>, rank: map<CategoryId, int>,
                                                  t: CategoryId, p: CategoryId, c: CategoryId)
    requires Ranked(cats, rank) && c in cats && t in cats && cats[t].parent == Some(p)
    requires CheckDescendants(cats, rank, p, c)
    ensures CheckDescendants(cats, rank, t, c)
    decreases Upper(cats, rank, c)
  {
    var d :| d in cats && cats[d].parent == Some(c)
      && (d == p || (ChildShrinksUpper(cats, rank, c, d); CheckDescendants(cats, rank, p, d)));
    ChildShrinksUpper(cats, rank, c, d);
    if d == p {
      assert CheckDescendants(cats, rank, t, d);
    } else {
      CheckDescendantsExtend(cats, rank, t, p, d);
    }
  }

  lemma {:induction false} CheckDescendantsComplete(cats: map<CategoryId, Category>, rank: map<CategoryId, int>,
                                                    t: CategoryId, c: CategoryId)
    requires Ranked(cats, rank) && c in cats && t in cats
    requires Below(cats, rank, t, c)
    ensures CheckDescendants(cats, rank, t, c)
    decreases Lower(cats, rank, t)
  {
    var p := cats[t].parent.value;
    if p != c {
      ParentShrinksLower(cats, rank, t);
      CheckDescendantsComplete(cats, rank, p, c);
      CheckDescendantsExtend(cats, rank, t, p, c);
    }
  }

  /** check_descendants finds exactly the categories that lie below c. */
  lemma CheckDescendantsIffBelow(cats: map<CategoryId, Category>, rank: map<CategoryId, int>,
                                 t: CategoryId, c: CategoryId)
    requires Ranked(cats, rank) && c in cats
    ensures CheckDescendants(cats, rank, t, c) <==> t in cats && Below(cats, rank, t, c)
  {
    if CheckDescendants(cats, rank, t, c) {
      CheckDescendantsSound(cats, rank, t, c);
    }
    if t in cats && Below(cats, rank, t, c) {
      CheckDescendantsComplete(cats, rank, t, c);
    }
  }

  lemma {:induction false} BelowRaisesRank(cats: map<CategoryId, Category>, rank: map<CategoryId, int>,
                                           x: CategoryId, c: CategoryId)
    requires Ranked(cats, rank) && x in cats && Below(cats, rank, x, c)
    ensures c in cats && rank[c] < rank[x]
    decreases Lower(cats, rank, x)
  {
    var p := cats[x].parent.value;
    if p != c {
      ParentShrinksLower(cats, rank, x);
      BelowRaisesRank(cats, rank, p, c);
    }
  }

  /** The ranks after c is moved under p: c's subtree is shifted to sit
      just above p, everything else keeps its rank. */
  ghost function Reranked(cats: map<CategoryId, Category>, rank: map<CategoryId, int>, c: CategoryId, p: CategoryId)
    : map<CategoryId, int>
    requires Ranked(cats, rank) && c in cats && p in cats
  {
    map k | k in rank :: if k in cats && (k == c || Below(cats, rank, k, c)) then rank[k] - rank[c] + rank[p] + 1 else rank[k]
  }

  /** Moving c under a parent p that is neither c nor below c keeps the
      hierarchy free of cycles (the ranks shift as Reranked says); moving it
      to the top level keeps it so with the same ranks. */
  lemma ReparentKeepsRanked(cats: map<CategoryId, Category>, rank: map<CategoryId, int>,
                            c: CategoryId, cat: Category)
    requires Ranked(cats, rank) && c in cats
    requires cat.parent.Some? ==> cat.parent.value in cats && cat.parent.value != c
                                  && !Below(cats, rank, cat.parent.value, c)
    ensures cat.parent == None ==> Ranked(cats[c := cat], rank)
    ensures cat.parent.Some? ==> Ranked(cats[c := cat], Reranked(cats, rank, c, cat.parent.value))
  {
    var cats' := cats[c := cat];
    if cat.parent.Some? {
      var p := cat.parent.value;
      var rank' := Reranked(cats, rank, c, p);
      forall k | k in cats' && cats'[k].parent.Some?
        ensures cats'[k].parent.value in cats' && rank'[cats'[k].parent.value] < rank'[k]
      {
        var q := cats'[k].parent.value;
        if k != c {
          if Below(cats, rank, k, c) {
            BelowRaisesRank(cats, rank, k, c);
            if q != c {
              assert Below(cats, rank, q, c);
            }
          } else {
            assert q != c && !Below(cats, rank, q, c);
          }
        }
      }
    }
  }

  /** Removing a category that no other category has as parent keeps the
      hierarchy ranked with the same ranks. */
  lemma RemoveLeafKeepsRanked(cats: map<CategoryId, Category>, rank: map<CategoryId, int>, c: CategoryId)
    requires Ranked(cats, rank)
    requires forall k :: k in cats ==> cats[k].parent != Some(c)
    ensures Ranked(cats - {c}, rank)
  {
  }

  /** One node of the category tree serializer: id, name, slug and the
      serialised children. */
  datatype TreeNode = TreeNode(id: CategoryId, name: string, slug: string, children: set<TreeNode>)

  /** Every id a serialised tree mentions. */
  function NodeIds(n: TreeNode): set<CategoryId>
    decreases n
  {
    {n.id} + (set m, i | m in n.children && i in NodeIds(m) :: i)
  }

  /** CategoryTreeSerializer for c: its fields, and get_children serialising
      each child category in turn. Siblings are a set here. */
  function TreeOf(cats: map<CategoryId, Category>, ghost rank: map<CategoryId, int>, c: CategoryId): (n: TreeNode)
    requires Ranked(cats, rank) && c in cats
    ensures n.id == c && n.name == cats[c].name && n.slug == cats[c].slug
    decreases Upper(cats, rank, c)
  {
    TreeNode(c, cats[c].name, cats[c].slug,
      set d | d in cats && cats[d].parent == Some(c) :: (ChildShrinksUpper(cats, rank, c, d); TreeOf(cats, rank, d)))
  }

  /** The serialised tree of c has one child node per child category. */
  lemma TreeChildren(cats: map<CategoryId, Category>, rank: map<CategoryId, int>, c: CategoryId)
    requires Ranked(cats, rank) && c in cats
    ensures (set m | m in TreeOf(cats, rank, c).children :: m.id) == (set d | d in cats && cats[d].parent == Some(c))
  {
    var n := TreeOf(cats, rank, c);
    forall d | d in cats && cats[d].parent == Some(c)
      ensures d in (set m | m in n.children :: m.id)
    {
      ChildShrinksUpper(cats, rank, c, d);
      assert TreeOf(cats, rank, d) in n.children;
    }
  }

  /** The serialised tree of c mentions c and exactly the categories below it. */
  lemma {:induction false} TreeIdsAreDescendants(cats: map<CategoryId, Category>, rank: map<CategoryId, int>, c: CategoryId)
    requires Ranked(cats, rank) && c in cats
    ensures NodeIds(TreeOf(cats, rank, c)) == {c} + (set x | x in cats && CheckDescendants(cats, rank, x, c))
    decreases Upper(cats, rank, c)
  {
    var n := TreeOf(cats, rank, c);
    var desc := set x | x in cats && CheckDescendants(cats, rank, x, c);
    forall i | i in NodeIds(n) && i != c ensures i in desc {
      var m :| m in n.children && i in NodeIds(m);
      var d :| d in cats && cats[d].parent == Some(c) && m == (ChildShrinksUpper(cats, rank, c, d); TreeOf(cats, rank, d));
      ChildShrinksUpper(cats, rank, c, d);
      TreeIdsAreDescendants(cats, rank, d);
      assert i == d || CheckDescendants(cats, rank, i, d);
    }
    forall x | x in desc ensures x in NodeIds(n) {
      var d :| d in cats && cats[d].parent == Some(c)
        && (d == x || (ChildShrinksUpper(cats, rank, c, d); CheckDescendants(cats, rank, x, d)));
      ChildShrinksUpper(cats, rank, c, d);
      TreeIdsAreDescendants(cats, rank, d);
      var m := TreeOf(cats, rank, d);
      assert m in n.children;
      assert x in NodeIds(m);
    }
  }
}
