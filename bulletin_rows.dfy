/** The BulletinStory join table: which stories a bulletin runs and in
    which order. The table is a sequence of rows in insertion order; the
    rows of one bulletin, taken in that order, are what
    `bulletin.bulletin_stories.all()` lists, and the store keeps them
    sorted by their order value, so that listing is also the
    `order_by('order')` listing. Every rebuild of a bulletin's rows
    enumerates the submitted story ids and gives each row the id's index,
    skipping ids that name no story, so the order values can have gaps. */
module BulletinRows {
  import opened Common

  /** One BulletinStory row. */
  datatype Link = Link(bulletin: BulletinId, story: StoryId, order: nat)

  /** The rows the `for index, story_id in enumerate(story_ids)` loop
      creates for bulletin b, when every id it meets is new to the
      bulletin: one row per id that names a stored story, whose order is
      the id's index in the input. Written in the loop's own snoc form. */
  function Placed(b: BulletinId, ids: seq<StoryId>, known: set<StoryId>): seq<Link>
  {
    if |ids| == 0 then []
    else
      var n := |ids| - 1;
      Placed(b, ids[..n], known) + (if ids[n] in known then [Link(b, ids[n], n)] else [])
  }

  /** The submitted ids that name a stored story, in input order. */
  function Resolved(ids: seq<StoryId>, known: set<StoryId>): seq<StoryId>
  {
    if |ids| == 0 then []
    else
      var n := |ids| - 1;
      Resolved(ids[..n], known) + (if ids[n] in known then [ids[n]] else [])
  }

  /** The stories of a list of rows, in the same order. */
  function StoriesOf(rows: seq<Link>): (r: seq<StoryId>)
    ensures |r| == |rows| && forall i :: 0 <= i < |rows| ==> r[i] == rows[i].story
  {
    if |rows| == 0 then [] else StoriesOf(rows[..|rows| - 1]) + [rows[|rows| - 1].story]
  }

  /** Some stored story occurs twice among the ids: the second
      BulletinStory.create for it breaks unique_together. */
  predicate Repeats(ids: seq<StoryId>, known: set<StoryId>) {
    exists i, j :: 0 <= i < j < |ids| && ids[i] == ids[j] && ids[i] in known
  }

  /** unique_together = ['bulletin', 'story']: no two rows share both. */
  predicate UniquePairs(rows: seq<Link>) {
    forall i, j :: 0 <= i < j < |rows| ==> (rows[i].bulletin != rows[j].bulletin || rows[i].story != rows[j].story)
  }

  /** Order values strictly increase along the list. */
  predicate Increasing(rows: seq<Link>) {
    forall i, j :: 0 <= i < j < |rows| ==> rows[i].order < rows[j].order
  }

  /** The rows of bulletin b, in table order. */
  function RowsOf(links: seq<Link>, b: BulletinId): (r: seq<Link>)
    ensures forall x :: x in r <==> x in links && x.bulletin == b
  {
    if |links| == 0 then []
    else
      var n := |links| - 1;
      RowsOf(links[..n], b) + (if links[n].bulletin == b then [links[n]] else [])
  }

  /** Every bulletin's rows are listed with increasing order values. */
  ghost predicate OrderedPerBulletin(links: seq<Link>) {
    forall b :: Increasing(RowsOf(links, b))
  }

  /** `bulletin.bulletin_stories.all().delete()`: the table without the
      rows of b. */
  function WithoutBulletin(links: seq<Link>, b: BulletinId): (r: seq<Link>)
    ensures forall x :: x in r <==> x in links && x.bulletin != b
  {
    if |links| == 0 then []
    else
      var n := |links| - 1;
      WithoutBulletin(links[..n], b) + (if links[n].bulletin != b then [links[n]] else [])
  }

  /** Whether the table already holds a row for (b, s), the lookup the
      unique_together constraint performs on insert. */
  function HasRow(links: seq<Link>, b: BulletinId, s: StoryId): (r: bool)
    ensures r <==> exists x :: x in links && x.bulletin == b && x.story == s
  {
    exists k :: 0 <= k < |links| && links[k].bulletin == b && links[k].story == s
  }

  /** The rows of a translation: the source's rows with the same story and
      order, re-pointed at bulletin t. */
  function Retarget(rows: seq<Link>, t: BulletinId): (r: seq<Link>)
    ensures |r| == |rows|
    ensures forall i :: 0 <= i < |rows| ==> r[i] == Link(t, rows[i].story, rows[i].order)
  {
    seq(|rows|, i requires 0 <= i < |rows| => rows[i].(bulletin := t))
  }

  /** Copying one more row extends the copy by that row. */
  lemma RetargetSnoc(rows: seq<Link>, t: BulletinId, i: nat)
    requires i < |rows|
    ensures Retarget(rows[..i + 1], t) == Retarget(rows[..i], t) + [Link(t, rows[i].story, rows[i].order)]
  {
  }

  /** A copy of some bulletin's rows names only stories the rows name. */
  lemma RetargetStories(links: seq<Link>, src: BulletinId, t: BulletinId, known: set<StoryId>)
    requires forall x :: x in links ==> x.story in known
    ensures forall x :: x in Retarget(RowsOf(links, src), t) ==> x.bulletin == t && x.story in known
  {
    var rows := RowsOf(links, src);
    forall x | x in Retarget(rows, t) ensures x.bulletin == t && x.story in known {
      var i :| 0 <= i < |rows| && Retarget(rows, t)[i] == x;
      assert rows[i] in rows;
    }
  }

  /** The rows a rebuild creates are exactly the pairs (id, index) of the
      input whose id names a stored story, all belonging to b. */
  lemma {:induction false} PlacedRows(b: BulletinId, ids: seq<StoryId>, known: set<StoryId>, x: Link)
    ensures x in Placed(b, ids, known) <==> x.bulletin == b && x.order < |ids| && ids[x.order] == x.story && x.story in known
    decreases |ids|
  {
    if |ids| > 0 {
      var n := |ids| - 1;
      PlacedRows(b, ids[..n], known, x);
    }
  }

  /** Along the rebuilt rows the order values strictly increase, and all
      of them are indices of the input. */
  lemma {:induction false} PlacedIncreasing(b: BulletinId, ids: seq<StoryId>, known: set<StoryId>)
    ensures Increasing(Placed(b, ids, known))
    ensures forall i :: 0 <= i < |Placed(b, ids, known)| ==> Placed(b, ids, known)[i].order < |ids|
    decreases |ids|
  {
    if |ids| > 0 {
      var n := |ids| - 1;
      PlacedIncreasing(b, ids[..n], known);
    }
  }

  /** The rebuilt rows run the stored stories of the input in input order,
      unknown ids dropped. */
  lemma {:induction false} PlacedStories(b: BulletinId, ids: seq<StoryId>, known: set<StoryId>)
    ensures StoriesOf(Placed(b, ids, known)) == Resolved(ids, known)
    decreases |ids|
  {
    if |ids| > 0 {
      var n := |ids| - 1;
      var p := Placed(b, ids[..n], known);
      PlacedStories(b, ids[..n], known);
      if ids[n] in known {
        assert Placed(b, ids, known) == p + [Link(b, ids[n], n)];
        assert (p + [Link(b, ids[n], n)])[..|p|] == p;
      } else {
        assert Placed(b, ids, known) == p;
      }
    }
  }

  /** Without a repeated stored story the rebuild never breaks
      unique_together. */
  lemma {:induction false} PlacedUnique(b: BulletinId, ids: seq<StoryId>, known: set<StoryId>)
    requires !Repeats(ids, known)
    ensures UniquePairs(Placed(b, ids, known))
    decreases |ids|
  {
    if |ids| > 0 {
      var n := |ids| - 1;
      var p := Placed(b, ids[..n], known);
      PlacedUnique(b, ids[..n], known);
      if ids[n] in known {
        forall i | 0 <= i < |p|
          ensures p[i].story != ids[n]
        {
          PlacedRows(b, ids[..n], known, p[i]);
          var o := p[i].order;
          assert ids[o] == p[i].story && o < n;
        }
      }
    }
  }

  /** A rebuild with a repeated stored story breaks unique_together. */
  lemma RepeatsBreakUnique(b: BulletinId, ids: seq<StoryId>, known: set<StoryId>, i: nat, j: nat)
    requires i < j < |ids| && ids[i] == ids[j] && ids[i] in known
    ensures Repeats(ids, known)
    ensures Link(b, ids[i], i) in Placed(b, ids, known) && Link(b, ids[j], j) in Placed(b, ids, known)
  {
    PlacedRows(b, ids, known, Link(b, ids[i], i));
    PlacedRows(b, ids, known, Link(b, ids[j], j));
  }

  /** The orders are not renumbered: submitting [1, 2, 3, 4] when 3 names
      no story gives orders 0, 1 and 3. */
  lemma SkippedIdLeavesGap()
    ensures Placed(7, [1, 2, 3, 4], {1, 2, 4}) == [Link(7, 1, 0), Link(7, 2, 1), Link(7, 4, 3)]
  {
    var known: set<StoryId> := {1, 2, 4};
    assert [1, 2, 3, 4][..3] == [1, 2, 3] && [1, 2, 3][..2] == [1, 2] && [1, 2][..1] == [1] && [1][..0] == [];
    assert Placed(7, [1], known) == [Link(7, 1, 0)];
    assert Placed(7, [1, 2], known) == [Link(7, 1, 0), Link(7, 2, 1)];
    assert Placed(7, [1, 2, 3], known) == [Link(7, 1, 0), Link(7, 2, 1)];
  }

  lemma {:induction false} RowsOfAppend(links: seq<Link>, more: seq<Link>, b: BulletinId)
    ensures RowsOf(links + more, b) == RowsOf(links, b) + RowsOf(more, b)
    decreases |more|
  {
    if |more| > 0 {
      var n := |more| - 1;
      assert (links + more)[..|links| + n] == links + more[..n];
      RowsOfAppend(links, more[..n], b);
    } else {
      assert links + more == links;
    }
  }

  /** A list all of whose rows belong to b is its own b-listing, and lists
      nothing for any other bulletin. */
  lemma {:induction false} RowsOfOwn(rows: seq<Link>, b: BulletinId, c: BulletinId)
    requires forall i :: 0 <= i < |rows| ==> rows[i].bulletin == b
    ensures RowsOf(rows, b) == rows
    ensures c != b ==> RowsOf(rows, c) == []
    decreases |rows|
  {
    if |rows| > 0 {
      var n := |rows| - 1;
      RowsOfOwn(rows[..n], b, c);
      assert rows[..n] + [rows[n]] == rows;
    }
  }

  lemma {:induction false} RowsOfWithout(links: seq<Link>, b: BulletinId, c: BulletinId)
    ensures RowsOf(WithoutBulletin(links, b), c) == (if c == b then [] else RowsOf(links, c))
    decreases |links|
  {
    if |links| > 0 {
      var n := |links| - 1;
      var x := links[n];
      RowsOfWithout(links[..n], b, c);
      var w := WithoutBulletin(links[..n], b);
      var tail := if x.bulletin != b then [x] else [];
      assert WithoutBulletin(links, b) == w + tail;
      RowsOfAppend(w, tail, c);
      assert [x][..0] == [];
      assert RowsOf(tail, c) == if x.bulletin != b && x.bulletin == c then [x] else [];
    }
  }

  /** A sublist of increasing rows is increasing. */
  lemma {:induction false} RowsOfIncreasing(rows: seq<Link>, c: BulletinId)
    requires Increasing(rows)
    ensures Increasing(RowsOf(rows, c))
    ensures forall x :: x in RowsOf(rows, c) ==> x in rows
    decreases |rows|
  {
    if |rows| > 0 {
      var n := |rows| - 1;
      RowsOfIncreasing(rows[..n], c);
      var r := RowsOf(rows[..n], c);
      var tail := if rows[n].bulletin == c then [rows[n]] else [];
      assert RowsOf(rows, c) == r + tail;
      forall i | 0 <= i < |r| ensures r[i].order < rows[n].order {
        assert r[i] in rows[..n];
        var k :| 0 <= k < n && rows[..n][k] == r[i];
        assert rows[k] == r[i];
      }
      forall i, j | 0 <= i < j < |r + tail| ensures (r + tail)[i].order < (r + tail)[j].order {
        if j < |r| {
          assert (r + tail)[i] == r[i] && (r + tail)[j] == r[j];
        } else {
          assert (r + tail)[i] == r[i] && (r + tail)[j] == rows[n];
        }
      }
    }
  }

  /** The rows of one bulletin in a table with unique pairs name each
      story once. */
  lemma {:induction false} RowsOfUnique(links: seq<Link>, b: BulletinId)
    requires UniquePairs(links)
    ensures UniquePairs(RowsOf(links, b))
    decreases |links|
  {
    if |links| > 0 {
      var n := |links| - 1;
      assert UniquePairs(links[..n]);
      RowsOfUnique(links[..n], b);
      var r := RowsOf(links[..n], b);
      forall i | 0 <= i < |r| ensures r[i].bulletin != links[n].bulletin || r[i].story != links[n].story {
        assert r[i] in links[..n];
        var k :| 0 <= k < n && links[k] == r[i];
      }
    }
  }

  /** Appending rows for a bulletin that has none keeps the pairs unique. */
  lemma AppendUnique(base: seq<Link>, more: seq<Link>, b: BulletinId)
    requires UniquePairs(base) && UniquePairs(more)
    requires forall x :: x in base ==> x.bulletin != b
    requires forall i :: 0 <= i < |more| ==> more[i].bulletin == b
    ensures UniquePairs(base + more)
  {
    forall i, j | 0 <= i < j < |base + more|
      ensures (base + more)[i].bulletin != (base + more)[j].bulletin || (base + more)[i].story != (base + more)[j].story
    {
      if i < |base| && j >= |base| {
        assert base[i] in base;
      }
    }
  }

  /** Appending an increasing list of rows for a bulletin that has none
      keeps every bulletin's rows ordered. */
  lemma AppendOrdered(base: seq<Link>, more: seq<Link>, b: BulletinId)
    requires OrderedPerBulletin(base) && Increasing(more)
    requires RowsOf(base, b) == []
    requires forall i :: 0 <= i < |more| ==> more[i].bulletin == b
    ensures OrderedPerBulletin(base + more)
    ensures RowsOf(base + more, b) == more
  {
    forall c ensures Increasing(RowsOf(base + more, c)) {
      RowsOfAppend(base, more, c);
      RowsOfOwn(more, b, c);
      assert Increasing(RowsOf(base, c));
    }
    RowsOfAppend(base, more, b);
    RowsOfOwn(more, b, b);
  }

  /** Removing one bulletin's rows keeps the others' rows, their order and
      their uniqueness. */
  lemma WithoutKeeps(links: seq<Link>, b: BulletinId)
    requires UniquePairs(links) && OrderedPerBulletin(links)
    ensures UniquePairs(WithoutBulletin(links, b)) && OrderedPerBulletin(WithoutBulletin(links, b))
    ensures RowsOf(WithoutBulletin(links, b), b) == []
  {
    WithoutSubsequence(links, b);
    forall c ensures Increasing(RowsOf(WithoutBulletin(links, b), c)) {
      RowsOfWithout(links, b, c);
      assert Increasing(RowsOf(links, c));
    }
    RowsOfWithout(links, b, b);
  }

  lemma {:induction false} WithoutSubsequence(links: seq<Link>, b: BulletinId)
    requires UniquePairs(links)
    ensures UniquePairs(WithoutBulletin(links, b))
    decreases |links|
  {
    if |links| > 0 {
      var n := |links| - 1;
      assert UniquePairs(links[..n]);
      WithoutSubsequence(links[..n], b);
      var w := WithoutBulletin(links[..n], b);
      forall i | 0 <= i < |w| ensures w[i].bulletin != links[n].bulletin || w[i].story != links[n].story {
        assert w[i] in links[..n];
        var k :| 0 <= k < n && links[k] == w[i];
      }
    }
  }

  /** The copied rows of a translation keep the source's uniqueness and
      order. */
  lemma RetargetKeeps(rows: seq<Link>, b: BulletinId, t: BulletinId)
    requires forall i :: 0 <= i < |rows| ==> rows[i].bulletin == b
    requires UniquePairs(rows) && Increasing(rows)
    ensures UniquePairs(Retarget(rows, t)) && Increasing(Retarget(rows, t))
    ensures StoriesOf(Retarget(rows, t)) == StoriesOf(rows)
  {
  }

  /** A table with no row for b lists nothing for b. */
  lemma RowsOfNone(links: seq<Link>, b: BulletinId)
    requires forall x :: x in links ==> x.bulletin != b
    ensures RowsOf(links, b) == []
  {
    assert forall x :: x !in RowsOf(links, b);
  }

  /** Every rebuilt row belongs to b and names a stored story. */
  lemma PlacedBelongs(b: BulletinId, ids: seq<StoryId>, known: set<StoryId>)
    ensures forall x :: x in Placed(b, ids, known) ==> x.bulletin == b && x.story in known
    ensures forall i :: 0 <= i < |Placed(b, ids, known)| ==> Placed(b, ids, known)[i].bulletin == b
  {
    forall x | x in Placed(b, ids, known) ensures x.bulletin == b && x.story in known {
      PlacedRows(b, ids, known, x);
    }
  }

  /** Rebuilding the rows of a bulletin that has none, from ids without a
      repeated stored story, keeps the pairs unique and every bulletin's
      rows ordered, and the bulletin then lists exactly the rebuilt rows. */
  lemma RebuildKeeps(base: seq<Link>, b: BulletinId, ids: seq<StoryId>, known: set<StoryId>)
    requires UniquePairs(base) && OrderedPerBulletin(base)
    requires forall x :: x in base ==> x.bulletin != b
    requires !Repeats(ids, known)
    ensures UniquePairs(base + Placed(b, ids, known)) && OrderedPerBulletin(base + Placed(b, ids, known))
    ensures RowsOf(base + Placed(b, ids, known), b) == Placed(b, ids, known)
    ensures forall x :: x in Placed(b, ids, known) ==> x.bulletin == b && x.story in known
  {
    var p := Placed(b, ids, known);
    PlacedBelongs(b, ids, known);
    PlacedUnique(b, ids, known);
    PlacedIncreasing(b, ids, known);
    AppendUnique(base, p, b);
    RowsOfNone(base, b);
    AppendOrdered(base, p, b);
  }

  /** Copying the rows of bulletin src to a bulletin t that has none keeps
      the pairs unique and every bulletin's rows ordered, and t then lists
      src's rows re-pointed at t. */
  lemma CopyKeeps(links: seq<Link>, src: BulletinId, t: BulletinId)
    requires UniquePairs(links) && OrderedPerBulletin(links)
    requires forall x :: x in links ==> x.bulletin != t
    ensures UniquePairs(links + Retarget(RowsOf(links, src), t))
    ensures OrderedPerBulletin(links + Retarget(RowsOf(links, src), t))
    ensures RowsOf(links + Retarget(RowsOf(links, src), t), t) == Retarget(RowsOf(links, src), t)
  {
    var rows := RowsOf(links, src);
    assert Increasing(rows);
    RowsOfUnique(links, src);
    assert forall i :: 0 <= i < |rows| ==> rows[i].bulletin == src by {
      assert forall i :: 0 <= i < |rows| ==> rows[i] in rows;
    }
    RetargetKeeps(rows, src, t);
    AppendUnique(links, Retarget(rows, t), t);
    RowsOfNone(links, t);
    AppendOrdered(links, Retarget(rows, t), t);
  }
}
