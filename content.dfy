/** The editorial records of the newsroom (stories and their text,
    bulletins and their ordered stories, shows, tasks and task notes) with
    their field defaults and the small rules their model classes carry:
    publishing, completing a task and counting a story's words. */
module Content {
  import opened Common
  import opened Text

  /** The status choices shared by stories, bulletins and shows. */
  datatype Status = Draft | Review | Approved | Published | Archived

  datatype Language = EN | AF | XH

  /** The publishing fields shared by stories, bulletins and shows. */
  datatype Publication = Publication(status: Status, publishedAt: Option<Time>)

  /** What a new story, bulletin or show starts with. */
  const Unpublished := Publication(Draft, None)

  /** publish(): whatever the status was, the record becomes PUBLISHED and
      is stamped with the current time. */
  function Publish(p: Publication, now: Time): (r: Publication)
    ensures r.status == Published && r.publishedAt == Some(now)
  {
    Publication(Published, Some(now))
  }

  /** Publishing again only moves the stamp. */
  lemma PublishAgainRestamps(p: Publication, first: Time, second: Time)
    ensures Publish(Publish(p, first), second) == Publish(p, second)
    ensures Publish(Publish(p, first), second).publishedAt == Some(second)
  {
  }

  datatype Story = Story(
    title: string,
    author: UserId,
    categories: set<CategoryId>,
    pub: Publication,
    language: Language,
    original: Option<StoryId>)

  datatype Bulletin = Bulletin(
    title: string,
    editor: UserId,
    categories: set<CategoryId>,
    intro: string,
    outro: string,
    pub: Publication,
    language: Language,
    original: Option<BulletinId>)

  datatype Show = Show(
    title: string,
    description: string,
    creator: UserId,
    categories: set<CategoryId>,
    pub: Publication,
    language: Language)

  datatype TaskType = StoryCreate | StoryEdit | StoryTranslate | BulletinCreate | ShowCreate | FollowUp | Other

  datatype TaskStatus = Todo | InProgress | InReview | Completed | Cancelled

  datatype Task = Task(
    taskType: TaskType,
    title: string,
    description: string,
    assignedBy: UserId,
    assignedTo: UserId,
    dueDate: Option<Time>,
    relatedStory: Option<StoryId>,
    relatedBulletin: Option<BulletinId>,
    status: TaskStatus,
    completedAt: Option<Time>)

  datatype TaskNote = TaskNote(task: TaskId, user: UserId, content: string)

  /** A story as its field defaults build it: DRAFT, English, no categories,
      not a translation. */
  function NewStory(title: string, author: UserId): (s: Story)
    ensures s.title == title && s.author == author
    ensures s.pub.status == Draft && s.pub.publishedAt == None && s.language == EN
    ensures s.categories == {} && s.original == None
  {
    Story(title, author, {}, Unpublished, EN, None)
  }

  /** A bulletin as its field defaults build it: DRAFT, English, empty outro. */
  function NewBulletin(title: string, editor: UserId, intro: string): (b: Bulletin)
    ensures b.title == title && b.editor == editor && b.intro == intro && b.outro == ""
    ensures b.pub.status == Draft && b.pub.publishedAt == None && b.language == EN
    ensures b.categories == {} && b.original == None
  {
    Bulletin(title, editor, {}, intro, "", Unpublished, EN, None)
  }

  /** A show as its field defaults build it: DRAFT, English. */
  function NewShow(title: string, description: string, creator: UserId): (s: Show)
    ensures s.title == title && s.description == description && s.creator == creator
    ensures s.pub.status == Draft && s.pub.publishedAt == None && s.language == EN
    ensures s.categories == {}
  {
    Show(title, description, creator, {}, Unpublished, EN)
  }

  /** A task as its field defaults build it: TODO and not completed. */
  function NewTask(taskType: TaskType, title: string, description: string,
                   assignedBy: UserId, assignedTo: UserId): (t: Task)
    ensures t.taskType == taskType && t.title == title && t.description == description
    ensures t.assignedBy == assignedBy && t.assignedTo == assignedTo
    ensures t.status == Todo && t.completedAt == None
    ensures t.dueDate == None && t.relatedStory == None && t.relatedBulletin == None
  {
    Task(taskType, title, description, assignedBy, assignedTo, None, None, None, Todo, None)
  }

  /** Task.complete(): COMPLETED, stamped now, nothing else changed. */
  function Complete(t: Task, now: Time): (r: Task)
    ensures r.status == Completed && r.completedAt == Some(now)
    ensures r.(status := t.status, completedAt := t.completedAt) == t
  {
    t.(status := Completed, completedAt := Some(now))
  }

  /** Story.word_count: the number of whitespace-separated words of the
      story's text, and 0 when the story has no content record. */
  function WordCount(content: Option<string>): (n: nat)
    ensures content == None ==> n == 0
    ensures content.Some? ==> n == WordStarts(content.value, true)
    ensures content.Some? ==> (n == 0 <==> AllSpace(content.value))
  {
    match content
    case None => 0
    case Some(text) =>
      SplitCountsWordStarts(text);
      SplitEmptyIffAllSpace(text);
      |Split(text)|
  }
}
