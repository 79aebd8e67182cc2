/** The newsroom database and the views and API serializer methods that
    change it: publishing, translating, rebuilding a bulletin's story
    list, editing shows and categories, deleting categories, and the task
    views. Each view is a method that first applies its permission test,
    then looks up its record (a missing one is the 404 of
    get_object_or_404), then validates its form, and only then writes. A
    `transaction.atomic()` block that raises is undone as a whole; the
    serializer methods have no such block, so what they wrote before an
    error stays. */
module NewsroomStore {
  import opened Common
  import opened Content
  import opened Permissions
  import opened Categories
  import opened BulletinRows
  import opened Editorial

  /** The POST fields of the bulletin create and edit pages; "" stands for
      an empty or missing title or intro. */
  datatype BulletinForm = BulletinForm(
    title: string,
    intro: string,
    outro: string,
    categories: seq<CategoryId>,
    language: Language,
    stories: seq<StoryId>)

  /** The POST fields of the show edit page. */
  datatype ShowForm = ShowForm(title: string, description: string, categories: seq<CategoryId>, language: Language)

  /** The validated fields of TaskCreateSerializer. */
  datatype TaskData = TaskData(
    taskType: TaskType,
    title: string,
    description: string,
    assignedTo: UserId,
    dueDate: Option<Time>,
    relatedStory: Option<StoryId>,
    relatedBulletin: Option<BulletinId>)

  /** The slug column is unique. */
  predicate UniqueSlugs(cats: map<CategoryId, Category>) {
    forall a, b :: a in cats && b in cats && cats[a].slug == cats[b].slug ==> a == b
  }

  /** `Category.objects.filter(slug=slug).exclude(id=id).exists()`. */
  predicate SlugTakenByOther(cats: map<CategoryId, Category>, slug: string, id: CategoryId) {
    exists k :: k in cats && k != id && cats[k].slug == slug
  }

  /** `category.children.exists()`. */
  predicate HasChildCategories(cats: map<CategoryId, Category>, id: CategoryId) {
    exists k :: k in cats && cats[k].parent == Some(id)
  }

  class Newsroom {
    var categories: map<CategoryId, Category>
    /** Witness that the parent links have no cycle. */
    ghost var rank: map<CategoryId, int>
    var stories: map<StoryId, Story>
    /** StoryContent, keyed by its one-to-one story. */
    var contents: map<StoryId, string>
    var bulletins: map<BulletinId, Bulletin>
    /** The BulletinStory table in insertion order. */
    var links: seq<Link>
    var shows: map<ShowId, Show>
    var tasks: map<TaskId, Task>
    var notes: seq<TaskNote>

    /** What the database guarantees: an acyclic category tree with unique
        slugs, foreign keys that resolve, and BulletinStory rows unique per
        (bulletin, story) and listed in order. */
    ghost predicate Valid()
      reads this
    {
      Ranked(categories, rank) && UniqueSlugs(categories)
      && contents.Keys <= stories.Keys
      && (forall s :: s in stories ==> stories[s].categories <= categories.Keys)
      && (forall b :: b in bulletins ==> bulletins[b].categories <= categories.Keys)
      && (forall s :: s in shows ==> shows[s].categories <= categories.Keys)
      && LinksValid()
      && (forall n :: n in notes ==> n.task in tasks)
    }

    /** The BulletinStory rows: unique per (bulletin, story), in order, and
        every row's bulletin and story exist. */
    ghost predicate LinksValid()
      reads this
    {
      UniquePairs(links) && OrderedPerBulletin(links)
      && (forall x :: x in links ==> x.bulletin in bulletins && x.story in stories)
    }

    /** `category.stories.exists() or category.bulletins.exists() or
        category.shows.exists()`. */
    predicate CategoryInUse(c: CategoryId)
      reads this
    {
      (exists s :: s in stories && c in stories[s].categories)
      || (exists b :: b in bulletins && c in bulletins[b].categories)
      || (exists s :: s in shows && c in shows[s].categories)
    }

    constructor()
      ensures Valid()
      ensures categories == map[] && stories == map[] && contents == map[] && bulletins == map[]
      ensures links == [] && shows == map[] && tasks == map[] && notes == []
    {
      categories := map[];
      rank := map[];
      stories := map[];
      contents := map[];
      bulletins := map[];
      links := [];
      shows := map[];
      tasks := map[];
      notes := [];
    }

    // -------------------------------------------------------------------
    // Bulletin story rows

    /** The `for index, story_id in enumerate(story_ids)` loop for a
        bulletin that has no rows: an id that names no story is skipped,
        any other gets a row whose order is its index, and a second row for
        the same story breaks unique_together, stopping the loop with the
        rows so far in place. */
    method PlaceStories(b: BulletinId, ids: seq<StoryId>) returns (o: Outcome)
      requires LinksValid() && b in bulletins
      requires forall x :: x in links ==> x.bulletin != b
      modifies this`links
      ensures LinksValid()
      ensures o.Pass? <==> !Repeats(ids, stories.Keys)
      ensures o.Fail? ==> o.error == IntegrityError
      ensures o.Pass? ==> links == old(links) + Placed(b, ids, stories.Keys)
                          && RowsOf(links, b) == Placed(b, ids, stories.Keys)
      ensures o.Fail? ==> exists k :: 0 <= k < |ids| && !Repeats(ids[..k], stories.Keys)
                                    && ids[k] in stories && ids[k] in ids[..k]
                                    && links == old(links) + Placed(b, ids[..k], stories.Keys)
      ensures forall c :: c != b ==> RowsOf(links, c) == RowsOf(old(links), c)
    {
      ghost var base := links;
      var i := 0;
      while i < |ids|
        invariant 0 <= i <= |ids|
        invariant links == base + Placed(b, ids[..i], stories.Keys)
        invariant !Repeats(ids[..i], stories.Keys)
      {
        var s := ids[i];
        assert ids[..i + 1][..i] == ids[..i];
        if s in stories {
          if HasRow(links, b, s) {
            var x :| x in links && x.bulletin == b && x.story == s;
            PlacedRows(b, ids[..i], stories.Keys, x);
            assert ids[x.order] == s && x.order < i;
            assert ids[..i][x.order] == s;
            RowsKept(base, b, ids[..i]);
            return Fail(IntegrityError);
          }
          forall j | 0 <= j < i && ids[j] in stories
            ensures Link(b, ids[j], j) in links
          {
            PlacedRows(b, ids[..i], stories.Keys, Link(b, ids[j], j));
          }
          links := links + [Link(b, s, i)];
        }
        i := i + 1;
      }
      assert ids[..|ids|] == ids;
      RowsKept(base, b, ids);
      return Pass;
    }

    /** Placing the rows of an unrepeated prefix after rows of other
        bulletins keeps the row invariant and leaves the other bulletins'
        rows as they were. */
    lemma RowsKept(base: seq<Link>, b: BulletinId, ids: seq<StoryId>)
      requires UniquePairs(base) && OrderedPerBulletin(base) && b in bulletins
      requires forall x :: x in base ==> x.bulletin != b && x.bulletin in bulletins && x.story in stories
      requires !Repeats(ids, stories.Keys) && links == base + Placed(b, ids, stories.Keys)
      ensures LinksValid() && RowsOf(links, b) == Placed(b, ids, stories.Keys)
      ensures forall c :: c != b ==> RowsOf(links, c) == RowsOf(base, c)
    {
      RebuildKeeps(base, b, ids, stories.Keys);
      PlacedBelongs(b, ids, stories.Keys);
      forall c | c != b ensures RowsOf(links, c) == RowsOf(base, c) {
        RowsOfAppend(base, Placed(b, ids, stories.Keys), c);
        RowsOfOwn(Placed(b, ids, stories.Keys), b, c);
      }
    }

    /** The `for item in original.bulletin_stories.all()` loop of
        bulletin_translate: a row for the new bulletin with the same story
        and order, for every row of the original. */
    method CopyRows(src: BulletinId, id: BulletinId)
      requires LinksValid() && id in bulletins
      requires forall x :: x in links ==> x.bulletin != id
      modifies this`links
      ensures LinksValid()
      ensures links == old(links) + Retarget(RowsOf(old(links), src), id)
      ensures RowsOf(links, id) == Retarget(RowsOf(old(links), src), id)
    {
      var rows := RowsOf(links, src);
      ghost var base := links;
      for i := 0 to |rows|
        invariant links == base + Retarget(rows[..i], id)
      {
        RetargetSnoc(rows, id, i);
        links := links + [Link(id, rows[i].story, rows[i].order)];
      }
      assert rows[..|rows|] == rows;
      CopyKeeps(base, src, id);
      RetargetStories(base, src, id, stories.Keys);
    }

    /** `bulletin.bulletin_stories.all().delete()`. */
    method ClearRows(b: BulletinId)
      requires LinksValid()
      modifies this`links
      ensures LinksValid()
      ensures links == WithoutBulletin(old(links), b)
      ensures forall x :: x in links ==> x.bulletin != b
      ensures forall c :: c != b ==> RowsOf(links, c) == RowsOf(old(links), c)
    {
      WithoutKeeps(links, b);
      forall c | c != b ensures RowsOf(WithoutBulletin(links, b), c) == RowsOf(links, c) {
        RowsOfWithout(links, b, c);
      }
      links := WithoutBulletin(links, b);
    }

    /** Delete every row of a bulletin, then place the given stories, as
        bulletin_edit and BulletinDetailSerializer.update do. */
    method ReplaceRows(b: BulletinId, ids: seq<StoryId>) returns (o: Outcome)
      requires LinksValid() && b in bulletins
      modifies this`links
      ensures LinksValid()
      ensures o.Pass? <==> !Repeats(ids, stories.Keys)
      ensures o.Fail? ==> o.error == IntegrityError
      ensures o.Pass? ==> links == WithoutBulletin(old(links), b) + Placed(b, ids, stories.Keys)
                          && RowsOf(links, b) == Placed(b, ids, stories.Keys)
      ensures o.Fail? ==> exists k :: 0 <= k < |ids| && ids[k] in ids[..k]
                                    && links == WithoutBulletin(old(links), b) + Placed(b, ids[..k], stories.Keys)
      ensures forall c :: c != b ==> RowsOf(links, c) == RowsOf(old(links), c)
    {
      ClearRows(b);
      o := PlaceStories(b, ids);
    }

    // -------------------------------------------------------------------
    // Publishing

    /** story_publish: sub-editor or above; the story becomes PUBLISHED,
        stamped now. */
    method StoryPublish(a: Actor, id: StoryId, now: Time) returns (o: Outcome)
      requires Valid()
      modifies this`stories
      ensures Valid()
      ensures !CanPublishStory(a) ==> o == Fail(PermissionDenied)
      ensures CanPublishStory(a) && id !in old(stories) ==> o == Fail(NotFound)
      ensures o.Pass? <==> CanPublishStory(a) && id in old(stories)
      ensures o.Pass? ==> stories == old(stories)[id := old(stories)[id].(pub := Publish(old(stories)[id].pub, now))]
      ensures o.Fail? ==> stories == old(stories)
    {
      if !CanPublishStory(a) {
        return Fail(PermissionDenied);
      }
      if id !in stories {
        return Fail(NotFound);
      }
      stories := stories[id := stories[id].(pub := Publish(stories[id].pub, now))];
      o := Pass;
    }

    /** bulletin_publish: editor or above. */
    method BulletinPublish(a: Actor, id: BulletinId, now: Time) returns (o: Outcome)
      requires Valid()
      modifies this`bulletins
      ensures Valid()
      ensures !IsEditorOrAbove(a) ==> o == Fail(PermissionDenied)
      ensures IsEditorOrAbove(a) && id !in old(bulletins) ==> o == Fail(NotFound)
      ensures o.Pass? <==> IsEditorOrAbove(a) && id in old(bulletins)
      ensures o.Pass? ==> bulletins == old(bulletins)[id := old(bulletins)[id].(pub := Publish(old(bulletins)[id].pub, now))]
      ensures o.Fail? ==> bulletins == old(bulletins)
    {
      if !IsEditorOrAbove(a) {
        return Fail(PermissionDenied);
      }
      if id !in bulletins {
        return Fail(NotFound);
      }
      bulletins := bulletins[id := bulletins[id].(pub := Publish(bulletins[id].pub, now))];
      o := Pass;
    }

    /** show_publish: editor or above. */
    method ShowPublish(a: Actor, id: ShowId, now: Time) returns (o: Outcome)
      requires Valid()
      modifies this`shows
      ensures Valid()
      ensures !IsEditorOrAbove(a) ==> o == Fail(PermissionDenied)
      ensures IsEditorOrAbove(a) && id !in old(shows) ==> o == Fail(NotFound)
      ensures o.Pass? <==> IsEditorOrAbove(a) && id in old(shows)
      ensures o.Pass? ==> shows == old(shows)[id := old(shows)[id].(pub := Publish(old(shows)[id].pub, now))]
      ensures o.Fail? ==> shows == old(shows)
    {
      if !IsEditorOrAbove(a) {
        return Fail(PermissionDenied);
      }
      if id !in shows {
        return Fail(NotFound);
      }
      shows := shows[id := shows[id].(pub := Publish(shows[id].pub, now))];
      o := Pass;
    }

    // -------------------------------------------------------------------
    // Translations

    /** story_translate (POST) with the fresh id of the new story: refused
        when a translation of the story already has the language; otherwise
        a DRAFT copy of the title and categories by the actor, pointing at
        the original, with a copy of its text ("" when it has none). */
    method StoryTranslate(a: Actor, src: StoryId, language: Language, id: StoryId) returns (r: Result<StoryId>)
      requires Valid() && id !in stories
      modifies this`stories, this`contents
      ensures Valid()
      ensures !IsStaff(a) ==> r == Err(PermissionDenied)
      ensures IsStaff(a) && src !in old(stories) ==> r == Err(NotFound)
      ensures IsStaff(a) && src in old(stories) && StoryTranslatedInto(old(stories), src, language)
              ==> r == Err(Duplicate("language"))
      ensures r.Ok? <==> IsStaff(a) && src in old(stories) && !StoryTranslatedInto(old(stories), src, language)
      ensures r.Err? ==> stories == old(stories) && contents == old(contents)
      ensures r.Ok? ==> (
        r.value == id
        && stories == old(stories)[id := Story(old(stories)[src].title, a.id, old(stories)[src].categories,
                                              Unpublished, language, Some(src))]
        && contents == old(contents)[id := if src in old(contents) then old(contents)[src] else ""])
    {
      if !IsStaff(a) {
        return Err(PermissionDenied);
      }
      if src !in stories {
        return Err(NotFound);
      }
      if exists t :: t in stories && stories[t].original == Some(src) && stories[t].language == language {
        return Err(Duplicate("language"));
      }
      var original := stories[src];
      var text := if src in contents then contents[src] else "";
      stories := stories[id := NewStory(original.title, a.id).(language := language, original := Some(src),
                                                              categories := original.categories)];
      contents := contents[id := text];
      r := Ok(id);
    }

    /** bulletin_translate (POST): sub-editor or above; refused when a
        translation already has the language; otherwise a DRAFT copy of
        title, intro, outro and categories by the actor, and a copy of
        every story row with the same story and order. */
    method BulletinTranslate(a: Actor, src: BulletinId, language: Language, id: BulletinId)
      returns (r: Result<BulletinId>)
      requires Valid() && id !in bulletins
      modifies this`bulletins, this`links
      ensures Valid()
      ensures !IsSubEditorOrAbove(a) ==> r == Err(PermissionDenied)
      ensures IsSubEditorOrAbove(a) && src !in old(bulletins) ==> r == Err(NotFound)
      ensures IsSubEditorOrAbove(a) && src in old(bulletins) && BulletinTranslatedInto(old(bulletins), src, language)
              ==> r == Err(Duplicate("language"))
      ensures r.Ok? <==> IsSubEditorOrAbove(a) && src in old(bulletins)
                         && !BulletinTranslatedInto(old(bulletins), src, language)
      ensures r.Err? ==> bulletins == old(bulletins) && links == old(links)
      ensures r.Ok? ==> (
        r.value == id
        && bulletins == old(bulletins)[id := old(bulletins)[src].(editor := a.id, pub := Unpublished,
                                                                 language := language, original := Some(src))]
        && links == old(links) + Retarget(RowsOf(old(links), src), id)
        && RowsOf(links, id) == Retarget(RowsOf(old(links), src), id))
    {
      if !IsSubEditorOrAbove(a) {
        return Err(PermissionDenied);
      }
      if src !in bulletins {
        return Err(NotFound);
      }
      if exists t :: t in bulletins && bulletins[t].original == Some(src) && bulletins[t].language == language {
        return Err(Duplicate("language"));
      }
      var original := bulletins[src];
      bulletins := bulletins[id := NewBulletin(original.title, a.id, original.intro).(
                     outro := original.outro, language := language, original := Some(src),
                     categories := original.categories)];
      CopyRows(src, id);
      r := Ok(id);
    }

    // -------------------------------------------------------------------
    // Bulletins

    /** bulletin_create (POST) with the fresh id of the new bulletin:
        sub-editor or above, title and intro required; inside one atomic
        block the bulletin is created with the submitted categories that
        exist and its story rows are placed. A repeated story undoes the
        whole block. */
    method BulletinCreate(a: Actor, form: BulletinForm, id: BulletinId) returns (r: Result<BulletinId>)
      requires Valid() && id !in bulletins
      modifies this`bulletins, this`links
      ensures Valid()
      ensures !CanCreateBulletin(a) ==> r == Err(PermissionDenied)
      ensures CanCreateBulletin(a) && (form.title == "" || form.intro == "") ==> r == Err(Required("title and intro"))
      ensures r.Ok? <==> CanCreateBulletin(a) && form.title != "" && form.intro != ""
                         && !Repeats(form.stories, stories.Keys)
      ensures CanCreateBulletin(a) && form.title != "" && form.intro != "" && r.Err? ==> r.error == IntegrityError
      ensures r.Err? ==> bulletins == old(bulletins) && links == old(links)
      ensures r.Ok? ==> (
        r.value == id
        && bulletins == old(bulletins)[id := Bulletin(form.title, a.id, Picked(form.categories, categories.Keys),
                                                      form.intro, form.outro, Unpublished, form.language, None)]
        && links == old(links) + Placed(id, form.stories, stories.Keys)
        && RowsOf(links, id) == Placed(id, form.stories, stories.Keys))
    {
      if !CanCreateBulletin(a) {
        return Err(PermissionDenied);
      }
      if form.title == "" || form.intro == "" {
        return Err(Required("title and intro"));
      }
      var savedBulletins, savedLinks := bulletins, links;
      bulletins := bulletins[id := NewBulletin(form.title, a.id, form.intro).(
                     outro := form.outro, language := form.language,
                     categories := Picked(form.categories, categories.Keys))];
      var o := PlaceStories(id, form.stories);
      if o.Fail? {
        bulletins, links := savedBulletins, savedLinks;
        return Err(o.error);
      }
      r := Ok(id);
    }

    /** bulletin_edit (POST): sub-editor or above, title and intro
        required; inside one atomic block the fields are overwritten, the
        categories replaced by the submitted ones that exist (cleared when
        none are submitted), every story row deleted and the rows rebuilt.
        A repeated story undoes the whole block. */
    method BulletinEdit(a: Actor, id: BulletinId, form: BulletinForm) returns (o: Outcome)
      requires Valid()
      modifies this`bulletins, this`links
      ensures Valid()
      ensures !IsSubEditorOrAbove(a) ==> o == Fail(PermissionDenied)
      ensures IsSubEditorOrAbove(a) && id !in old(bulletins) ==> o == Fail(NotFound)
      ensures IsSubEditorOrAbove(a) && id in old(bulletins) && (form.title == "" || form.intro == "")
              ==> o == Fail(Required("title and intro"))
      ensures o.Pass? <==> IsSubEditorOrAbove(a) && id in old(bulletins) && form.title != "" && form.intro != ""
                           && !Repeats(form.stories, stories.Keys)
      ensures IsSubEditorOrAbove(a) && id in old(bulletins) && form.title != "" && form.intro != "" && o.Fail?
              ==> o.error == IntegrityError
      ensures o.Fail? ==> bulletins == old(bulletins) && links == old(links)
      ensures o.Pass? ==>
        bulletins == old(bulletins)[id := old(bulletins)[id].(title := form.title, intro := form.intro,
                                                             outro := form.outro, language := form.language,
                                                             categories := Picked(form.categories, categories.Keys))]
        && links == WithoutBulletin(old(links), id) + Placed(id, form.stories, stories.Keys)
        && RowsOf(links, id) == Placed(id, form.stories, stories.Keys)
        && (forall c :: c != id ==> RowsOf(links, c) == RowsOf(old(links), c))
    {
      if !IsSubEditorOrAbove(a) {
        return Fail(PermissionDenied);
      }
      if id !in bulletins {
        return Fail(NotFound);
      }
      if form.title == "" || form.intro == "" {
        return Fail(Required("title and intro"));
      }
      var savedBulletins, savedLinks := bulletins, links;
      bulletins := bulletins[id := bulletins[id].(title := form.title, intro := form.intro, outro := form.outro,
                                                  language := form.language,
                                                  categories := Picked(form.categories, categories.Keys))];
      o := ReplaceRows(id, form.stories);
      if o.Fail? {
        bulletins, links := savedBulletins, savedLinks;
        return;
      }
    }

    // -------------------------------------------------------------------
    // Shows

    /** show_edit (POST): an authenticated user who is the show's creator
        or editor or above; title and description required; the fields are
        overwritten and the categories replaced by the submitted ones that
        exist (cleared when none are submitted). */
    method ShowEdit(a: Actor, id: ShowId, form: ShowForm) returns (o: Outcome)
      requires Valid()
      modifies this`shows
      ensures Valid()
      ensures a.Anonymous? ==> o == Fail(PermissionDenied)
      ensures a.Member? && id !in old(shows) ==> o == Fail(NotFound)
      ensures a.Member? && id in old(shows) && !CanEditShow(a, old(shows)[id].creator) ==> o == Fail(PermissionDenied)
      ensures o.Pass? <==> a.Member? && id in old(shows) && CanEditShow(a, old(shows)[id].creator)
                           && form.title != "" && form.description != ""
      ensures a.Member? && id in old(shows) && CanEditShow(a, old(shows)[id].creator) && o.Fail?
              ==> o == Fail(Required("title and description"))
      ensures o.Pass? ==> shows == old(shows)[id := old(shows)[id].(title := form.title, description := form.description,
                                                                   language := form.language,
                                                                   categories := Picked(form.categories, categories.Keys))]
      ensures o.Fail? ==> shows == old(shows)
    {
      if a.Anonymous? {
        return Fail(PermissionDenied);
      }
      if id !in shows {
        return Fail(NotFound);
      }
      if !CanEditShow(a, shows[id].creator) {
        return Fail(PermissionDenied);
      }
      if form.title == "" || form.description == "" {
        return Fail(Required("title and description"));
      }
      shows := shows[id := shows[id].(title := form.title, description := form.description, language := form.language,
                                      categories := Picked(form.categories, categories.Keys))];
      o := Pass;
    }

    // -------------------------------------------------------------------
    // Categories

    /** category_edit (POST): editor or above; name and slug required, the
        slug not used by another category; a parent must be neither the
        category itself nor one of its descendants, and must exist. The
        submitted form becomes the stored category, and the hierarchy stays
        free of cycles. */
    method CategoryEdit(a: Actor, id: CategoryId, form: Category) returns (o: Outcome)
      requires Valid()
      modifies this`categories, this`rank
      ensures Valid()
      ensures !IsEditorOrAbove(a) ==> o == Fail(PermissionDenied)
      ensures IsEditorOrAbove(a) && id !in old(categories) ==> o == Fail(NotFound)
      ensures IsEditorOrAbove(a) && id in old(categories) && (form.name == "" || form.slug == "")
              ==> o == Fail(Required("name and slug"))
      ensures (IsEditorOrAbove(a) && id in old(categories) && form.name != "" && form.slug != ""
               && SlugTakenByOther(old(categories), form.slug, id)) ==> o == Fail(Duplicate("slug"))
      ensures o.Pass? ==> form.name != "" && form.slug != "" && !SlugTakenByOther(old(categories), form.slug, id)
      ensures o.Pass? && form.parent.Some? ==> form.parent.value != id && form.parent.value in old(categories)
      ensures form.parent == Some(id) ==> o.Fail?
      ensures (form.parent.Some? && form.parent.value in old(categories) && id in old(categories)
               && Below(old(categories), old(rank), form.parent.value, id)) ==> o.Fail?
      ensures (IsEditorOrAbove(a) && id in old(categories) && form.name != "" && form.slug != ""
               && !SlugTakenByOther(old(categories), form.slug, id) && form.parent.Some?) ==> (
        var p := form.parent.value;
        (o == Fail(SelfParent) <==> p == id)
        && (o == Fail(DescendantParent) <==> (p in old(categories) && p != id && Below(old(categories), old(rank), p, id)))
        && (o == Fail(NotFound) <==> p !in old(categories))
        && (o.Pass? <==> (p in old(categories) && p != id && !Below(old(categories), old(rank), p, id))))
      ensures (IsEditorOrAbove(a) && id in old(categories) && form.name != "" && form.slug != ""
               && !SlugTakenByOther(old(categories), form.slug, id) && form.parent == None) ==> o.Pass?
      ensures o.Pass? ==> categories == old(categories)[id := form]
      ensures o.Fail? ==> categories == old(categories)
    {
      if !IsEditorOrAbove(a) {
        return Fail(PermissionDenied);
      }
      if id !in categories {
        return Fail(NotFound);
      }
      if form.name == "" || form.slug == "" {
        return Fail(Required("name and slug"));
      }
      if exists k :: k in categories && k != id && categories[k].slug == form.slug {
        return Fail(Duplicate("slug"));
      }
      if form.parent.Some? {
        var p := form.parent.value;
        if p == id {
          return Fail(SelfParent);
        }
        CheckDescendantsIffBelow(categories, rank, p, id);
        if CheckDescendants(categories, rank, p, id) {
          return Fail(DescendantParent);
        }
        if p !in categories {
          return Fail(NotFound);
        }
        ReparentKeepsRanked(categories, rank, id, form);
        rank := Reranked(categories, rank, id, p);
      } else {
        ReparentKeepsRanked(categories, rank, id, form);
      }
      categories := categories[id := form];
      o := Pass;
    }

    /** category_delete (POST): editor or above; refused while the category
        has children or any story, bulletin or show is filed under it. */
    method CategoryDelete(a: Actor, id: CategoryId) returns (o: Outcome)
      requires Valid()
      modifies this`categories
      ensures Valid()
      ensures !IsEditorOrAbove(a) ==> o == Fail(PermissionDenied)
      ensures IsEditorOrAbove(a) && id !in old(categories) ==> o == Fail(NotFound)
      ensures IsEditorOrAbove(a) && id in old(categories) && HasChildCategories(old(categories), id)
              ==> o == Fail(HasChildren)
      ensures (IsEditorOrAbove(a) && id in old(categories) && !HasChildCategories(old(categories), id)
               && CategoryInUse(id)) ==> o == Fail(HasContent)
      ensures o.Pass? <==> IsEditorOrAbove(a) && id in old(categories) && !HasChildCategories(old(categories), id)
                           && !CategoryInUse(id)
      ensures o.Pass? ==> categories == old(categories) - {id}
      ensures o.Fail? ==> categories == old(categories)
    {
      if !IsEditorOrAbove(a) {
        return Fail(PermissionDenied);
      }
      if id !in categories {
        return Fail(NotFound);
      }
      if exists k :: k in categories && categories[k].parent == Some(id) {
        return Fail(HasChildren);
      }
      if CategoryInUse(id) {
        return Fail(HasContent);
      }
      RemoveLeafKeepsRanked(categories, rank, id);
      categories := categories - {id};
      o := Pass;
    }

    // -------------------------------------------------------------------
    // Tasks

    /** The tasks task_list starts from: all of them for editors and above,
        else those the actor is assigned to or assigned. */
    function VisibleTasks(a: Actor): (r: Result<set<TaskId>>)
      reads this
      ensures !IsStaff(a) ==> r == Err(PermissionDenied)
      ensures IsStaff(a) ==> r.Ok? && forall t :: t in r.value <==> t in tasks && CanViewTask(a, tasks[t])
    {
      if !IsStaff(a) then Err(PermissionDenied)
      else if IsEditorOrAbove(a) then Ok(tasks.Keys)
      else Ok(set t | t in tasks && (tasks[t].assignedTo == a.id || tasks[t].assignedBy == a.id))
    }

    /** task_update_status (POST): staff, then the task's assignee or editor
        or above; a non-empty note is stored first, then the status is set.
        The completion stamp is never written. */
    method TaskUpdateStatus(a: Actor, id: TaskId, status: TaskStatus, note: string, now: Time) returns (o: Outcome)
      requires Valid()
      modifies this`tasks, this`notes
      ensures Valid()
      ensures !IsStaff(a) ==> o == Fail(PermissionDenied)
      ensures IsStaff(a) && id !in old(tasks) ==> o == Fail(NotFound)
      ensures o.Pass? <==> IsStaff(a) && id in old(tasks) && CanUpdateTaskStatus(a, old(tasks)[id])
      ensures o.Fail? ==> tasks == old(tasks) && notes == old(notes)
      ensures o.Pass? ==> tasks == old(tasks)[id := StatusUpdated(old(tasks)[id], status, now)]
      ensures o.Pass? ==> tasks[id].status == status && tasks[id].completedAt == old(tasks)[id].completedAt
      ensures o.Pass? ==> notes == old(notes) + (if note == "" then [] else [TaskNote(id, a.id, note)])
    {
      if !IsStaff(a) {
        return Fail(PermissionDenied);
      }
      if id !in tasks {
        return Fail(NotFound);
      }
      if !CanUpdateTaskStatus(a, tasks[id]) {
        return Fail(PermissionDenied);
      }
      if note != "" {
        notes := notes + [TaskNote(id, a.id, note)];
      }
      tasks := tasks[id := StatusUpdated(tasks[id], status, now)];
      o := Pass;
    }

    /** add_task_note (POST): staff, then editor or above or the task's
        assignee or assigner; the note must not be empty. */
    method AddTaskNote(a: Actor, id: TaskId, content: string) returns (o: Outcome)
      requires Valid()
      modifies this`notes
      ensures Valid()
      ensures !IsStaff(a) ==> o == Fail(PermissionDenied)
      ensures IsStaff(a) && id !in tasks ==> o == Fail(NotFound)
      ensures IsStaff(a) && id in tasks && !CanViewTask(a, tasks[id]) ==> o == Fail(PermissionDenied)
      ensures IsStaff(a) && id in tasks && CanViewTask(a, tasks[id]) && content == "" ==> o == Fail(Required("content"))
      ensures o.Pass? <==> IsStaff(a) && id in tasks && CanViewTask(a, tasks[id]) && content != ""
      ensures o.Pass? ==> notes == old(notes) + [TaskNote(id, a.id, content)]
      ensures o.Fail? ==> notes == old(notes)
    {
      if !IsStaff(a) {
        return Fail(PermissionDenied);
      }
      if id !in tasks {
        return Fail(NotFound);
      }
      if !CanViewTask(a, tasks[id]) {
        return Fail(PermissionDenied);
      }
      if content == "" {
        return Fail(Required("content"));
      }
      notes := notes + [TaskNote(id, a.id, content)];
      o := Pass;
    }

    /** TaskCreateSerializer.create with the fresh id of the new task: the
        requesting user becomes the assigner, whatever was submitted. */
    method TaskCreate(requester: UserId, d: TaskData, id: TaskId) returns (r: TaskId)
      requires Valid() && id !in tasks
      modifies this`tasks
      ensures Valid()
      ensures r == id && tasks.Keys == old(tasks).Keys + {id}
      ensures tasks == old(tasks)[id := Task(d.taskType, d.title, d.description, requester, d.assignedTo, d.dueDate,
                                             d.relatedStory, d.relatedBulletin, Todo, None)]
      ensures tasks[id].assignedBy == requester
    {
      var t := NewTask(d.taskType, d.title, d.description, requester, d.assignedTo).(
                 dueDate := d.dueDate, relatedStory := d.relatedStory, relatedBulletin := d.relatedBulletin);
      tasks := tasks[id := t];
      r := id;
    }

    // -------------------------------------------------------------------
    // Story and bulletin serializers

    /** StoryDetailSerializer.create with the fresh id of the new story:
        the story from its validated fields, the given categories, and
        always exactly one content record, "" when no content was sent. */
    method StoryDetailCreate(title: string, author: UserId, fields: seq<StoryField>, cats: set<CategoryId>,
                             content: Option<string>, id: StoryId) returns (r: StoryId)
      requires Valid() && id !in stories
      requires cats <= categories.Keys
      modifies this`stories, this`contents
      ensures Valid()
      ensures r == id
      ensures stories == old(stories)[id := ApplyStoryFields(NewStory(title, author), fields).(categories := cats)]
      ensures contents == old(contents)[id := content.GetOr("")]
      ensures id !in old(contents) && id in contents
    {
      var s := NewStory(title, author);
      for i := 0 to |fields|
        invariant s == ApplyStoryFields(NewStory(title, author), fields[..i])
      {
        assert fields[..i + 1][..i] == fields[..i];
        s := SetStoryField(s, fields[i]);
      }
      assert fields[..|fields|] == fields;
      stories := stories[id := s.(categories := cats)];
      contents := contents[id := content.GetOr("")];
      r := id;
    }

    /** StoryDetailSerializer.update: the setattr loop over the validated
        fields; the categories replaced only when they were sent (even when
        empty); the text overwritten, creating the record if missing, only
        when content was sent. */
    method StoryDetailUpdate(id: StoryId, fields: seq<StoryField>, cats: Option<set<CategoryId>>,
                             content: Option<string>)
      requires Valid() && id in stories
      requires cats.Some? ==> cats.value <= categories.Keys
      modifies this`stories, this`contents
      ensures Valid()
      ensures stories == old(stories)[id := ApplyStoryFields(old(stories)[id], fields).(
                           categories := cats.GetOr(old(stories)[id].categories))]
      ensures content.Some? ==> contents == old(contents)[id := content.value]
      ensures content == None ==> contents == old(contents)
    {
      var s := stories[id];
      for i := 0 to |fields|
        invariant s == ApplyStoryFields(old(stories)[id], fields[..i])
        invariant s.categories == old(stories)[id].categories
      {
        assert fields[..i + 1][..i] == fields[..i];
        s := SetStoryField(s, fields[i]);
      }
      assert fields[..|fields|] == fields;
      if cats.Some? {
        s := s.(categories := cats.value);
      }
      stories := stories[id := s];
      if content.Some? {
        contents := contents[id := content.value];
      }
    }

    /** BulletinDetailSerializer.create with the fresh id of the new
        bulletin. There is no atomic block: the bulletin and any rows placed
        before a repeated story stay when that story breaks unique_together. */
    method BulletinDetailCreate(title: string, editor: UserId, intro: string, fields: seq<BulletinField>,
                                cats: set<CategoryId>, storyOrder: seq<StoryId>, id: BulletinId)
      returns (r: Result<BulletinId>)
      requires Valid() && id !in bulletins
      requires cats <= categories.Keys
      modifies this`bulletins, this`links
      ensures Valid()
      ensures bulletins == old(bulletins)[id := ApplyBulletinFields(NewBulletin(title, editor, intro), fields).(
                             categories := cats)]
      ensures r.Ok? <==> !Repeats(storyOrder, stories.Keys)
      ensures r.Ok? ==> r.value == id && links == old(links) + Placed(id, storyOrder, stories.Keys)
                        && RowsOf(links, id) == Placed(id, storyOrder, stories.Keys)
      ensures r.Err? ==> r.error == IntegrityError
                         && exists k :: 0 <= k < |storyOrder| && links == old(links) + Placed(id, storyOrder[..k], stories.Keys)
    {
      var b := NewBulletin(title, editor, intro);
      for i := 0 to |fields|
        invariant b == ApplyBulletinFields(NewBulletin(title, editor, intro), fields[..i])
      {
        assert fields[..i + 1][..i] == fields[..i];
        b := SetBulletinField(b, fields[i]);
      }
      assert fields[..|fields|] == fields;
      bulletins := bulletins[id := b.(categories := cats)];
      var o := PlaceStories(id, storyOrder);
      if o.Fail? {
        return Err(o.error);
      }
      r := Ok(id);
    }

    /** BulletinDetailSerializer.update: the setattr loop over the
        validated fields; the categories replaced only when sent; when a
        story order is sent, every row deleted and the rows rebuilt. There
        is no atomic block: a repeated story leaves the rows placed before
        it. */
    method BulletinDetailUpdate(id: BulletinId, fields: seq<BulletinField>, cats: Option<set<CategoryId>>,
                                storyOrder: Option<seq<StoryId>>) returns (o: Outcome)
      requires Valid() && id in bulletins
      requires cats.Some? ==> cats.value <= categories.Keys
      modifies this`bulletins, this`links
      ensures Valid()
      ensures bulletins == old(bulletins)[id := ApplyBulletinFields(old(bulletins)[id], fields).(
                             categories := cats.GetOr(old(bulletins)[id].categories))]
      ensures storyOrder == None ==> o == Pass && links == old(links)
      ensures storyOrder.Some? ==> (o.Pass? <==> !Repeats(storyOrder.value, stories.Keys))
      ensures storyOrder.Some? && o.Pass? ==>
        links == WithoutBulletin(old(links), id) + Placed(id, storyOrder.value, stories.Keys)
        && RowsOf(links, id) == Placed(id, storyOrder.value, stories.Keys)
      ensures storyOrder.Some? && o.Fail? ==> (
        o.error == IntegrityError
        && exists k :: 0 <= k < |storyOrder.value|
                       && links == WithoutBulletin(old(links), id) + Placed(id, storyOrder.value[..k], stories.Keys))
    {
      var b := bulletins[id];
      for i := 0 to |fields|
        invariant b == ApplyBulletinFields(old(bulletins)[id], fields[..i])
        invariant b.categories == old(bulletins)[id].categories
      {
        assert fields[..i + 1][..i] == fields[..i];
        b := SetBulletinField(b, fields[i]);
      }
      assert fields[..|fields|] == fields;
      if cats.Some? {
        b := b.(categories := cats.value);
      }
      bulletins := bulletins[id := b];
      if storyOrder == None {
        return Pass;
      }
      o := ReplaceRows(id, storyOrder.value);
    }
  }

  /** What the translation page offers is never refused by the submit. */
  lemma OfferedLanguageAccepted(stories: map<StoryId, Story>, src: StoryId, l: Language)
    requires src in stories && l in AvailableLanguages(stories, src)
    ensures !StoryTranslatedInto(stories, src, l)
    ensures ValidateTranslationRequest(stories, src, TranslationRequest(l, None, true)).Ok?
  {
  }
}
