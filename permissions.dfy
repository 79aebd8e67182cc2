/** The role checks that gate the newsroom and account views. Each view
    decorator or inline test is a predicate over the requesting actor (and,
    for ownership checks, the record concerned); the staff roles form a
    chain SUPERADMIN > ADMIN > EDITOR > SUB_EDITOR > JOURNALIST > INTERN
    and every predicate is some threshold on that chain. */
module Permissions {
  import opened Common
  import opened Accounts
  import opened Content

  /** The requesting user: anonymous, or an authenticated stored user. */
  datatype Actor = Anonymous | Member(id: UserId, user: User)

  /** Position of a role on the staff chain. */
  function Level(role: StaffRole): nat {
    match role
    case SuperAdmin => 5
    case Admin => 4
    case Editor => 3
    case SubEditor => 2
    case Journalist => 1
    case Intern => 0
  }

  /** Reference lattice: an authenticated STAFF user holding a role at or
      above `least`. */
  predicate StaffAtLeast(a: Actor, least: StaffRole) {
    a.Member? && a.user.userType == Staff && a.user.staffRole.Some?
    && Level(a.user.staffRole.value) >= Level(least)
  }

  /** is_staff: an authenticated STAFF user, whatever the role. */
  predicate IsStaff(a: Actor) {
    a.Member? && a.user.userType == Staff
  }

  /** is_editor_or_above: role among SUPERADMIN, ADMIN, EDITOR. */
  function IsEditorOrAbove(a: Actor): (r: bool)
    ensures r <==> StaffAtLeast(a, Editor)
  {
    a.Member? && a.user.userType == Staff
    && a.user.staffRole in {Some(SuperAdmin), Some(Admin), Some(Editor)}
  }

  /** is_sub_editor_or_above: role among SUPERADMIN, ADMIN, EDITOR, SUB_EDITOR. */
  function IsSubEditorOrAbove(a: Actor): (r: bool)
    ensures r <==> StaffAtLeast(a, SubEditor)
    ensures r <==> IsStaff(a) && a.user.staffRole.Some?
                   && a.user.staffRole.value in {SuperAdmin, Admin, Editor, SubEditor}
  {
    a.Member? && a.user.userType == Staff
    && a.user.staffRole in {Some(SuperAdmin), Some(Admin), Some(Editor), Some(SubEditor)}
  }

  /** is_admin and AdminPermission.has_permission: role SUPERADMIN or ADMIN. */
  function IsAdmin(a: Actor): (r: bool)
    ensures r <==> StaffAtLeast(a, Admin)
  {
    a.Member? && a.user.userType == Staff
    && a.user.staffRole in {Some(SuperAdmin), Some(Admin)}
  }

  /** can_create_story: any authenticated STAFF user. */
  function CanCreateStory(a: Actor): (r: bool)
    ensures r <==> IsStaff(a)
  {
    a.Member? && a.user.userType == Staff
  }

  /** can_create_show: any authenticated STAFF user. */
  function CanCreateShow(a: Actor): (r: bool)
    ensures r <==> IsStaff(a)
  {
    a.Member? && a.user.userType == Staff
  }

  /** can_publish_story: sub-editor or above. */
  function CanPublishStory(a: Actor): (r: bool)
    ensures r <==> StaffAtLeast(a, SubEditor)
  {
    IsSubEditorOrAbove(a)
  }

  /** can_create_bulletin: sub-editor or above. */
  function CanCreateBulletin(a: Actor): (r: bool)
    ensures r <==> StaffAtLeast(a, SubEditor)
  {
    IsSubEditorOrAbove(a)
  }

  /** can_edit_story: sub-editors and above edit any story; anyone else only
      a story they wrote and only while it is a DRAFT or in REVIEW. */
  function CanEditStory(a: Actor, author: UserId, status: Status): (r: bool)
    ensures StaffAtLeast(a, SubEditor) ==> r
    ensures !StaffAtLeast(a, SubEditor) ==> (r <==> a.Member? && a.id == author && status in {Draft, Review})
  {
    if IsSubEditorOrAbove(a) then true
    else a.Member? && a.id == author && (status == Draft || status == Review)
  }

  /** show_edit: the show's creator, or editor or above. */
  function CanEditShow(a: Actor, creator: UserId): (r: bool)
    ensures r <==> (a.Member? && a.id == creator) || StaffAtLeast(a, Editor)
  {
    (a.Member? && a.id == creator) || IsEditorOrAbove(a)
  }

  /** task_detail, add_task_note and the task_list queryset: editor or above,
      or the task's assignee or assigner. */
  function CanViewTask(a: Actor, t: Task): (r: bool)
    ensures r <==> StaffAtLeast(a, Editor) || (a.Member? && (a.id == t.assignedTo || a.id == t.assignedBy))
  {
    IsEditorOrAbove(a) || (a.Member? && a.id == t.assignedTo) || (a.Member? && a.id == t.assignedBy)
  }

  /** task_update_status: editor or above, or the task's assignee. */
  function CanUpdateTaskStatus(a: Actor, t: Task): (r: bool)
    ensures r <==> StaffAtLeast(a, Editor) || (a.Member? && a.id == t.assignedTo)
  {
    IsEditorOrAbove(a) || (a.Member? && a.id == t.assignedTo)
  }

  /** The thresholds are nested: admin implies editor implies sub-editor
      implies staff, and all of them need an authenticated STAFF user. */
  lemma RoleHierarchy(a: Actor)
    ensures IsAdmin(a) ==> IsEditorOrAbove(a)
    ensures IsEditorOrAbove(a) ==> IsSubEditorOrAbove(a)
    ensures IsSubEditorOrAbove(a) ==> IsStaff(a)
    ensures IsStaff(a) ==> a.Member? && a.user.userType == Staff
  {
  }

  /** StaffAtLeast is monotone along the chain. */
  lemma StaffAtLeastMonotone(a: Actor, higher: StaffRole, lower: StaffRole)
    requires Level(lower) <= Level(higher)
    ensures StaffAtLeast(a, higher) ==> StaffAtLeast(a, lower)
  {
  }

  /** An actor who is not sub-editor or above loses the right to edit their
      own story once it is APPROVED, PUBLISHED or ARCHIVED, and never had
      the right to edit someone else's. */
  lemma AuthorEditWindow(a: Actor, author: UserId, status: Status)
    requires !IsSubEditorOrAbove(a)
    ensures status in {Approved, Published, Archived} ==> !CanEditStory(a, author, status)
    ensures (a.Anonymous? || a.id != author) ==> !CanEditStory(a, author, status)
  {
  }

  /** Whoever may update a task's status may also view it and add notes. */
  lemma UpdateImpliesView(a: Actor, t: Task)
    ensures CanUpdateTaskStatus(a, t) ==> CanViewTask(a, t)
  {
  }

  /** RADIO users and anonymous visitors pass none of the newsroom checks. */
  lemma RadioUsersHaveNoNewsroomRights(a: Actor)
    requires a.Anonymous? || a.user.userType == Radio
    ensures !IsStaff(a) && !IsSubEditorOrAbove(a) && !IsEditorOrAbove(a) && !IsAdmin(a)
    ensures !CanCreateStory(a) && !CanCreateShow(a) && !CanPublishStory(a) && !CanCreateBulletin(a)
  {
  }
}
