/** The value-level rules behind the newsroom views and API serializers:
    the serializers' field-by-field updates of a story or bulletin, the
    duplicate-language test of translations and the languages a
    translation page offers, the translation request validation, the
    record task_update_status writes, and the category filter the views
    apply to submitted ids. */
module Editorial {
  import opened Common
  import opened Content

  // ---------------------------------------------------------------------
  // setattr(instance, attr, value) for the writable fields of a story

  /** One entry of a story serializer's validated data. Published_at,
      word_count and the timestamps are read-only and have no entry; the
      categories and the content are popped before the loop. */
  datatype StoryField =
    | StoryTitle(title: string)
    | StoryAuthor(author: UserId)
    | StoryStatus(status: Status)
    | StoryLanguage(language: Language)
    | StoryOriginal(original: Option<StoryId>)

  function SetStoryField(s: Story, f: StoryField): (r: Story)
    ensures StoryHolds(r, f)
    ensures r.categories == s.categories && r.pub.publishedAt == s.pub.publishedAt
  {
    match f
    case StoryTitle(t) => s.(title := t)
    case StoryAuthor(u) => s.(author := u)
    case StoryStatus(st) => s.(pub := s.pub.(status := st))
    case StoryLanguage(l) => s.(language := l)
    case StoryOriginal(o) => s.(original := o)
  }

  /** The story after `for attr, value in validated_data.items():
      setattr(instance, attr, value)`. */
  function ApplyStoryFields(s: Story, fs: seq<StoryField>): Story
  {
    if |fs| == 0 then s else SetStoryField(ApplyStoryFields(s, fs[..|fs| - 1]), fs[|fs| - 1])
  }

  /** The record has the value the entry carries. */
  predicate StoryHolds(s: Story, f: StoryField) {
    match f
    case StoryTitle(t) => s.title == t
    case StoryAuthor(u) => s.author == u
    case StoryStatus(st) => s.pub.status == st
    case StoryLanguage(l) => s.language == l
    case StoryOriginal(o) => s.original == o
  }

  /** Both entries set the same attribute. */
  predicate SameStoryAttr(f: StoryField, g: StoryField) {
    (f.StoryTitle? && g.StoryTitle?) || (f.StoryAuthor? && g.StoryAuthor?) || (f.StoryStatus? && g.StoryStatus?)
    || (f.StoryLanguage? && g.StoryLanguage?) || (f.StoryOriginal? && g.StoryOriginal?)
  }

  /** After the loop every attribute holds the value of the last entry that
      sets it. */
  lemma {:induction false} StoryLastWriteWins(s: Story, fs: seq<StoryField>, i: nat)
    requires i < |fs| && forall j :: i < j < |fs| ==> !SameStoryAttr(fs[i], fs[j])
    ensures StoryHolds(ApplyStoryFields(s, fs), fs[i])
    decreases |fs|
  {
    var n := |fs| - 1;
    if i < n {
      StoryLastWriteWins(s, fs[..n], i);
    }
  }

  /** An attribute no entry sets keeps its value, and the publishing stamp
      and the categories are never touched by the loop. */
  lemma {:induction false} StoryUntouched(s: Story, fs: seq<StoryField>, f: StoryField)
    requires StoryHolds(s, f) && forall j :: 0 <= j < |fs| ==> !SameStoryAttr(f, fs[j])
    ensures StoryHolds(ApplyStoryFields(s, fs), f)
    ensures ApplyStoryFields(s, fs).categories == s.categories
    ensures ApplyStoryFields(s, fs).pub.publishedAt == s.pub.publishedAt
    decreases |fs|
  {
    if |fs| > 0 {
      StoryUntouched(s, fs[..|fs| - 1], f);
    }
  }

  // ---------------------------------------------------------------------
  // setattr(instance, attr, value) for the writable fields of a bulletin

  /** One entry of a bulletin serializer's validated data; categories and
      story_order are popped before the loop. */
  datatype BulletinField =
    | BulletinTitle(title: string)
    | BulletinEditor(editor: UserId)
    | BulletinIntro(intro: string)
    | BulletinOutro(outro: string)
    | BulletinStatus(status: Status)
    | BulletinLanguage(language: Language)
    | BulletinOriginal(original: Option<BulletinId>)

  function SetBulletinField(b: Bulletin, f: BulletinField): (r: Bulletin)
    ensures BulletinHolds(r, f)
    ensures r.categories == b.categories && r.pub.publishedAt == b.pub.publishedAt
  {
    match f
    case BulletinTitle(t) => b.(title := t)
    case BulletinEditor(u) => b.(editor := u)
    case BulletinIntro(t) => b.(intro := t)
    case BulletinOutro(t) => b.(outro := t)
    case BulletinStatus(st) => b.(pub := b.pub.(status := st))
    case BulletinLanguage(l) => b.(language := l)
    case BulletinOriginal(o) => b.(original := o)
  }

  function ApplyBulletinFields(b: Bulletin, fs: seq<BulletinField>): Bulletin
  {
    if |fs| == 0 then b else SetBulletinField(ApplyBulletinFields(b, fs[..|fs| - 1]), fs[|fs| - 1])
  }

  predicate BulletinHolds(b: Bulletin, f: BulletinField) {
    match f
    case BulletinTitle(t) => b.title == t
    case BulletinEditor(u) => b.editor == u
    case BulletinIntro(t) => b.intro == t
    case BulletinOutro(t) => b.outro == t
    case BulletinStatus(st) => b.pub.status == st
    case BulletinLanguage(l) => b.language == l
    case BulletinOriginal(o) => b.original == o
  }

  predicate SameBulletinAttr(f: BulletinField, g: BulletinField) {
    (f.BulletinTitle? && g.BulletinTitle?) || (f.BulletinEditor? && g.BulletinEditor?)
    || (f.BulletinIntro? && g.BulletinIntro?) || (f.BulletinOutro? && g.BulletinOutro?)
    || (f.BulletinStatus? && g.BulletinStatus?) || (f.BulletinLanguage? && g.BulletinLanguage?)
    || (f.BulletinOriginal? && g.BulletinOriginal?)
  }

  lemma {:induction false} BulletinLastWriteWins(b: Bulletin, fs: seq<BulletinField>, i: nat)
    requires i < |fs| && forall j :: i < j < |fs| ==> !SameBulletinAttr(fs[i], fs[j])
    ensures BulletinHolds(ApplyBulletinFields(b, fs), fs[i])
    decreases |fs|
  {
    var n := |fs| - 1;
    if i < n {
      BulletinLastWriteWins(b, fs[..n], i);
    }
  }

  lemma {:induction false} BulletinUntouched(b: Bulletin, fs: seq<BulletinField>, f: BulletinField)
    requires BulletinHolds(b, f) && forall j :: 0 <= j < |fs| ==> !SameBulletinAttr(f, fs[j])
    ensures BulletinHolds(ApplyBulletinFields(b, fs), f)
    ensures ApplyBulletinFields(b, fs).categories == b.categories
    ensures ApplyBulletinFields(b, fs).pub.publishedAt == b.pub.publishedAt
    decreases |fs|
  {
    if |fs| > 0 {
      BulletinUntouched(b, fs[..|fs| - 1], f);
    }
  }

  /** A serializer update can set the status to PUBLISHED without stamping
      published_at, unlike publish(). */
  lemma SerializerPublishKeepsStamp(s: Story)
    requires s.pub.publishedAt == None
    ensures ApplyStoryFields(s, [StoryStatus(Published)]).pub == Publication(Published, None)
  {
    assert [StoryStatus(Published)][..0] == [];
  }

  // ---------------------------------------------------------------------
  // Translations

  /** `story.translations.filter(language=language).exists()`. */
  predicate StoryTranslatedInto(stories: map<StoryId, Story>, src: StoryId, language: Language) {
    exists t :: t in stories && stories[t].original == Some(src) && stories[t].language == language
  }

  /** `bulletin.translations.filter(language=language).exists()`. */
  predicate BulletinTranslatedInto(bulletins: map<BulletinId, Bulletin>, src: BulletinId, language: Language) {
    exists t :: t in bulletins && bulletins[t].original == Some(src) && bulletins[t].language == language
  }

  /** LANGUAGE_CHOICES in declaration order. */
  const Choices: seq<Language> := [EN, AF, XH]

  /** `story.translations.values_list('language', flat=True)`. */
  function TranslationLanguages(stories: map<StoryId, Story>, src: StoryId): (r: set<Language>)
    ensures forall l :: l in r <==> StoryTranslatedInto(stories, src, l)
  {
    var r := set t | t in stories && stories[t].original == Some(src) :: stories[t].language;
    TranslationLanguagesWitness(stories, src, r);
    r
  }

  lemma TranslationLanguagesWitness(stories: map<StoryId, Story>, src: StoryId, r: set<Language>)
    requires r == set t | t in stories && stories[t].original == Some(src) :: stories[t].language
    ensures forall l :: l in r <==> StoryTranslatedInto(stories, src, l)
  {
    forall l | StoryTranslatedInto(stories, src, l) ensures l in r {
      var t :| t in stories && stories[t].original == Some(src) && stories[t].language == l;
      assert stories[t].language in r;
    }
  }

  lemma ChoicesComplete()
    ensures forall l: Language :: l in Choices
  {
    forall l: Language ensures l in Choices {
      match l
      case EN => assert Choices[0] == l;
      case AF => assert Choices[1] == l;
      case XH => assert Choices[2] == l;
    }
  }

  function Without(langs: seq<Language>, taken: set<Language>): (r: seq<Language>)
    ensures forall l :: l in r <==> l in langs && l !in taken
    ensures |r| <= |langs|
    ensures (exists l :: l in langs && l in taken) ==> |r| < |langs|
  {
    if |langs| == 0 then []
    else (if langs[0] in taken then [] else [langs[0]]) + Without(langs[1..], taken)
  }

  /** The languages the story translation page offers: the choices in
      order, without the story's own language and those of its
      translations. */
  function AvailableLanguages(stories: map<StoryId, Story>, src: StoryId): (r: seq<Language>)
    requires src in stories
    ensures forall l :: l in r <==> l != stories[src].language && !StoryTranslatedInto(stories, src, l)
    ensures |r| <= 2
  {
    var existing := {stories[src].language} + TranslationLanguages(stories, src);
    ChoicesComplete();
    assert stories[src].language in Choices && stories[src].language in existing;
    Without(Choices, existing)
  }

  /** The page and the submit disagree: while no translation has the
      story's own language, a submit for it is accepted (the iff of
      NewsroomStore.Newsroom.StoryTranslate), yet the page never offers it. */
  lemma OwnLanguageNotOfferedButAccepted(stories: map<StoryId, Story>, src: StoryId)
    requires src in stories && !StoryTranslatedInto(stories, src, stories[src].language)
    ensures stories[src].language !in AvailableLanguages(stories, src)
  {
  }

  /** The fields of TranslationRequestSerializer; auto_assign defaults to
      true. */
  datatype TranslationRequest = TranslationRequest(language: Language, translator: Option<UserId>, autoAssign: bool)

  /** TranslationRequestSerializer.validate for the story in the context. */
  function ValidateTranslationRequest(stories: map<StoryId, Story>, src: StoryId, req: TranslationRequest)
    : (r: Result<TranslationRequest>)
    ensures r.Ok? <==> !StoryTranslatedInto(stories, src, req.language) && (req.autoAssign || req.translator.Some?)
    ensures r.Ok? ==> r.value == req
    ensures StoryTranslatedInto(stories, src, req.language) ==> r == Err(Duplicate("language"))
    ensures !StoryTranslatedInto(stories, src, req.language) && r.Err? ==> r == Err(Required("translator"))
  {
    if exists t :: t in stories && stories[t].original == Some(src) && stories[t].language == req.language then
      Err(Duplicate("language"))
    else if !req.autoAssign && req.translator == None then
      Err(Required("translator"))
    else Ok(req)
  }

  // ---------------------------------------------------------------------
  // Tasks

  /** The task record task_update_status saves: the status is assigned
      first, and only then is the stamp considered, under a test that
      compares the new status with itself. */
  function StatusUpdated(t: Task, status: TaskStatus, now: Time): (r: Task)
    ensures r.status == status && r.completedAt == t.completedAt
    ensures r.(status := t.status) == t
  {
    var updated := t.(status := status);
    if status == Completed && updated.status != Completed then updated.(completedAt := Some(now))
    else updated
  }

  /** Completing a task through task_update_status differs from
      Task.complete: the stamp stays unset. */
  lemma StatusCompletedIsNotComplete(t: Task, now: Time)
    requires t.completedAt == None
    ensures StatusUpdated(t, Completed, now).status == Complete(t, now).status
    ensures StatusUpdated(t, Completed, now).completedAt == None
    ensures Complete(t, now).completedAt == Some(now)
  {
  }

  // ---------------------------------------------------------------------
  // Submitted category ids

  /** `Category.objects.filter(id__in=category_ids)`: the submitted ids
      that name a category. */
  function Picked(ids: seq<CategoryId>, existing: set<CategoryId>): (r: set<CategoryId>)
    ensures r <= existing
    ensures forall c :: c in r <==> c in ids && c in existing
    ensures ids == [] ==> r == {}
  {
    set c | c in ids && c in existing
  }
}
