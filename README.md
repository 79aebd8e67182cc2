# Newskoop newsroom and account rules in Dafny

Newskoop is a Django newsroom. Staff users write stories, put them into
ordered news bulletins, produce shows, file all three under a tree of
categories, translate them between English, Afrikaans and isiXhosa, and
hand out tasks. Radio-station users belong to a station, and each station
should have one primary contact. This project models the business rules of
that system and proves properties of the model:

- the role predicates that gate every view;
- the editorial views and API serializer methods, as methods on an
  in-memory store of the database;
- the account views that create users and stations and move the
  primary-contact flag;
- the model-level save rules.

Layout:

- `common.dfy` (`Common`): `Option`, `Result`, `Outcome` and the error
  kinds. An error kind stands for an HTTP status or an exception class.
  Also the id synonyms, and `Time`, which is the value of `timezone.now()`
  passed in as a parameter.
- `text.dfy` (`Text`): the parts of Python's `str` that the rules use:
  `isspace`, `strip`, `split()`, `split('@')[0]`, `rsplit('@', 1)` and
  `lower()`.
- `emails.dfy` (`Emails`): `BaseUserManager.normalize_email`, which
  `create_user` applies to every email.
- `accounts.dfy` (`Accounts`): `RadioStation` and `CustomUser` with their
  field defaults; the normalisation done by `CustomUser.save`;
  `get_full_name` and `get_short_name`; the `create_superuser` defaults;
  the primary-contact sets.
- `account_serializers.dfy` (`AccountSerializers`): the `validate` methods
  of the three user serializers.
- `directory.dfy` (`AccountViews`): `LoginView.post` validation, and the
  class `Directory`, which holds the users and stations. Its methods model
  the two `save` overrides, `create_user` / `create_superuser`, and the
  account views.
- `content.dfy` (`Content`): Story, Bulletin, Show, Task and TaskNote with
  their defaults, `publish`, `Task.complete` and `word_count`.
- `permissions.dfy` (`Permissions`): the role predicates of both views
  modules.
- `categories.dfy` (`Categories`): the category tree with a rank that
  witnesses acyclicity, `full_path`, `check_descendants` and
  `CategoryTreeSerializer.get_children`.
- `bulletin_rows.dfy` (`BulletinRows`): the BulletinStory table as a
  sequence of rows, and the rows a story-id list produces.
- `editorial.dfy` (`Editorial`): the setattr loops of the serializers,
  translation languages, `TranslationRequestSerializer.validate`, and the
  status assignment of `task_update_status`.
- `newsroom.dfy` (`NewsroomStore`): the class `Newsroom`, which holds
  categories, stories, contents, bulletins, BulletinStory rows, shows,
  tasks and notes, with the newsroom views and serializer methods.

How the model is built:

- New UUIDs are parameters, with a precondition that they are fresh.
- An empty or missing POST value is the empty string.
- A view's permission test comes first, then the `get_object_or_404`
  lookup (`NotFound`), then the form checks.
- A `transaction.atomic()` block that raises leaves the store as it was.
- The serializer `create` / `update` methods run outside any atomic
  block. A repeated story id breaks `unique_together`; when it does, the
  rows already inserted stay and the method returns `IntegrityError`.
- Each class has a `Valid()` invariant that every method keeps:
  - `Newsroom`: the category parent links have no cycle, slugs are
    unique, every foreign key resolves, and BulletinStory rows are unique
    per (bulletin, story) and listed in `order`;
  - `Directory`: users are stored normalised, emails are unique, and
    stations exist.

Behaviour of the code that the model keeps as written, where a reader
might expect otherwise:

- A bulletin's row orders are the indices into the submitted list. An id
  that names no story is skipped and leaves a gap; the rows are not
  numbered consecutively (`BulletinRows.SkippedIdLeavesGap`).
- `story_translate` on POST refuses only a language that a translation
  already has. It accepts the source story's own language, which the GET
  page never offers (`Editorial.OwnLanguageNotOfferedButAccepted`, with
  the acceptance stated by `NewsroomStore.Newsroom.StoryTranslate`).
- In `task_update_status` the `completed_at` stamp is never written,
  because the guard tests the status after it has been assigned
  (`Editorial.StatusCompletedIsNotComplete`).
- A serializer update can set the status to PUBLISHED without stamping
  `published_at` (`Editorial.SerializerPublishKeepsStamp`).
- `station_create` with `is_active` off always fails. `RadioStation.save`
  finds a primary key on the unsaved station and looks up a row that does
  not exist yet (`AccountViews.Directory.SaveStation`).
- `edit_user` clears the selected station's primary contacts only when
  the submitted flag is on and differs from the stored one. A user who is
  already primary and is moved to a station that has a primary contact
  skips the clearing, and that station ends up with two
  (`AccountViews.EditUserCanLeaveTwoPrimaries`).
- `station_add_user` and `create_radio_user` look up the existing primary
  contact with `.get()`, so a station that already has two primary
  contacts makes them fail (`MultipleObjectsReturned`).
- `category_edit` with a parent id that names no category: the descendant
  check answers false, and the later `get` fails, so `NotFound`.
- `category_edit` compares the submitted parent id with `str(category.id)`
  as text, in the self check and in `check_descendants`, but looks the
  parent up by UUID. A parent id spelled differently from the canonical
  form (upper case, no hyphens) skips both checks and can make a cycle.
  The model has canonical ids only (see "Left out").
- The account views check for a duplicate with the email as typed, but
  `create_user` normalises it first (the domain is lower-cased). An email
  that differs from a stored one only in the case of its domain passes the
  check (`AccountViews.DomainCaseSlipsPastDuplicateCheck`), and the unique
  constraint then refuses it with `IntegrityError`. In `station_add_user`
  and `create_radio_user` the old primary contact has already been cleared
  and saved by then, and stays cleared (`AccountViews.Directory.AddRadioUser`).
  In `station_create` the atomic block takes the new station back.
- The API `add_user` checks the email as typed too, so the same variant
  reaches `create_user` and fails there with nothing stored.

## Model

| member | source | states |
|---|---|---|
| Permissions.IsEditorOrAbove | backend/newsroom/views.py:27-35 | holds exactly for an authenticated STAFF user whose role is SUPERADMIN, ADMIN or EDITOR |
| Permissions.IsSubEditorOrAbove | backend/newsroom/views.py:37-46 | holds exactly for an authenticated STAFF user whose role is one of SUPERADMIN, ADMIN, EDITOR or SUB_EDITOR |
| Permissions.IsAdmin | backend/accounts/views.py:112-120 | holds exactly for an authenticated STAFF user whose role is SUPERADMIN or ADMIN (AdminPermission and is_admin) |
| Permissions.CanCreateStory | backend/newsroom/views.py:48-51 | equals is_staff |
| Permissions.CanCreateShow | backend/newsroom/views.py:73-78 | equals is_staff |
| Permissions.CanPublishStory | backend/newsroom/views.py:65-67 | equals is_sub_editor_or_above |
| Permissions.CanCreateBulletin | backend/newsroom/views.py:69-71 | equals is_sub_editor_or_above |
| Permissions.CanEditStory | backend/newsroom/views.py:53-63 | true for sub-editors and above; otherwise true exactly for the story's author while the status is DRAFT or REVIEW |
| Permissions.CanEditShow | backend/newsroom/views.py:893-895 | the actor is the show's creator or editor-or-above |
| Permissions.CanViewTask | backend/newsroom/views.py:1388-1390 | editor-or-above, or the task's assignee or assigner |
| Permissions.CanUpdateTaskStatus | backend/newsroom/views.py:1346-1349 | editor-or-above, or the task's assignee |
| Permissions.RoleHierarchy | backend/newsroom/views.py:22-46 | admin implies editor-or-above, which implies sub-editor-or-above, which implies is_staff, which implies an authenticated STAFF user |
| Permissions.StaffAtLeastMonotone | backend/newsroom/views.py:27-46 | a role test passed at a higher level is passed at every lower level |
| Permissions.AuthorEditWindow | backend/newsroom/views.py:53-63 | below sub-editor, a story that is APPROVED, PUBLISHED or ARCHIVED, or one with another author, cannot be edited |
| Permissions.UpdateImpliesView | backend/newsroom/views.py:1346-1349 | whoever may update a task's status may also add notes to it |
| Permissions.RadioUsersHaveNoNewsroomRights | backend/newsroom/views.py:22-78 | an anonymous or RADIO actor passes none of the newsroom role tests |
| Text.Strip | backend/accounts/models.py:173 | the result is the input without leading and trailing whitespace; it is empty exactly when the input is all whitespace |
| Text.LastIndex | backend/accounts/models.py:11 | the position of the last occurrence of the character, which rsplit(c, 1) cuts at; None exactly when it does not occur |
| Text.Lower | backend/accounts/models.py:11 | same length, every ASCII upper-case letter lowered, every other character kept |
| Emails.NormaliseEmail | backend/accounts/models.py:11 | an email whose stripped form holds no '@' is returned unchanged |
| Emails.NormaliseEmailShape | backend/accounts/models.py:11 | otherwise the result is the stripped email with the same last '@', the part before it kept and the part after it lower-cased |
| Emails.NormalisedIsStripped | backend/accounts/models.py:11 | a normalised email with an '@' has no whitespace at either end |
| Emails.NormalFormFixed | backend/accounts/models.py:11 | a stripped email with no upper-case letter after its last '@' is its own normal form |
| Emails.NormaliseEmailIdempotent | backend/accounts/models.py:11 | normalising twice gives the same email as normalising once |
| Emails.DomainCaseIgnored | backend/accounts/models.py:11 | "a@B" and "a@b" differ, but "a@B" normalises to "a@b" |
| Text.Split | backend/newsroom/models.py:94 | every word is non-empty and contains no whitespace |
| Text.SplitCountsWordStarts | backend/newsroom/models.py:94 | the number of words is the number of places where a non-space character follows whitespace or the start |
| Text.SplitEmptyIffAllSpace | backend/newsroom/models.py:94 | split() is empty exactly when the text is all whitespace |
| Text.BeforeFirst | backend/accounts/models.py:176 | a prefix of the text with no '@', followed in the text by '@' when it is shorter |
| Accounts.NewStation | backend/accounts/models.py:32-92 | a new station is active, in Gauteng, with general religion access and English as its only access flag |
| Accounts.NewUser | backend/accounts/models.py:111-167 | a new user is active, STAFF, not staff or superuser, not a primary contact, with no role and no station |
| Accounts.Normalise | backend/accounts/models.py:178-188 | changes only is_staff and is_superuser; a STAFF user gets is_staff; any other user loses is_superuser and keeps is_staff only with role SUPERADMIN or ADMIN |
| Accounts.NormaliseIdempotent | backend/accounts/models.py:178-188 | saving twice normalises like saving once, and a normalised user is unchanged by saving |
| Accounts.SaveCheck | backend/accounts/models.py:190-192 | the save fails with ValueError exactly for a RADIO user without a station |
| Accounts.FullName | backend/accounts/models.py:172-173 | "first last" stripped, or the email when that is blank |
| Accounts.FullNameFallsBack | backend/accounts/models.py:172-173 | the email is returned exactly when both name parts are blank |
| Accounts.ShortName | backend/accounts/models.py:175-176 | the first name when non-empty, else the email up to its first '@' |
| Accounts.SuperuserDraft | backend/accounts/models.py:17-29 | unset options default to is_staff, is_superuser, is_active, STAFF and SUPERADMIN; is_staff or is_superuser set to anything but True is a ValueError |
| Accounts.DefaultSuperuser | backend/accounts/models.py:17-29 | a superuser with no options is accepted, already normalised, and passes the save check |
| Accounts.PrimaryContacts | backend/accounts/views.py:172 | exactly the users of the station whose primary-contact flag is set |
| Accounts.ClearPrimaries | backend/accounts/views.py:172 | the bulk update clears the flag of that station's users exactly, changes nothing else, and leaves the station with no primary contact |
| Accounts.Deactivated | backend/accounts/models.py:94-103 | the bulk update deactivates exactly that station's users and changes nothing else |
| AccountSerializers.ValidateStaffCreate | backend/accounts/serializers.py:50-58 | accepts exactly when a staff_role is given, and forces user_type STAFF |
| AccountSerializers.ValidateRadioCreate | backend/accounts/serializers.py:76-98 | forces user_type RADIO; rejects a missing radio_station; rejects a primary-contact request when the station already has one |
| AccountSerializers.UpdateTarget | backend/accounts/serializers.py:118 | the station given in the request, else the user's current one |
| AccountSerializers.ValidateRadioUpdate | backend/accounts/serializers.py:114-131 | rejects a primary-contact request exactly when another user of the target station is primary |
| AccountSerializers.NoPrimaryRequestNoCheck | backend/accounts/serializers.py:85-116 | a request that does not set is_primary_contact skips the primary-contact check |
| AccountSerializers.UserFromData | backend/accounts/serializers.py:100-102 | create_user copies the validated fields into the new user |
| AccountSerializers.RadioCreateKeepsOnePrimary | backend/accounts/serializers.py:85-96 | a user created after validation keeps at most one primary contact per station |
| AccountViews.Login | backend/accounts/views.py:39-70 | 400 listing exactly the missing fields among email and password; 403 for an inactive authenticated user; 401 when authentication fails; otherwise logged in as the authenticated user |
| AccountViews.RadioDraft | backend/accounts/views.py:454-465 | a RADIO user of the station with the form's fields and the given primary flag, already normalised and passing the save check |
| AccountViews.StaffDraft | backend/accounts/views.py:755-766 | a STAFF user with the form's fields and role, no station and no primary flag |
| AccountViews.WithPrimary | backend/accounts/views.py:170-176 | only primary flags change; the chosen user is the station's only primary contact; other stations are unchanged; at most one primary per station is kept |
| AccountViews.AddedRadioUser | backend/accounts/views.py:624-644 | the new user is added; when it is primary, the existing primary is cleared first and the new user is the only one; other stations are unchanged |
| AccountViews.EditedFields | backend/accounts/views.py:888-891 | first name, last name, mobile number and is_active are taken from the form and nothing else changes |
| AccountViews.EditedUsers | backend/accounts/views.py:851-908 | a STAFF user gets the submitted role; a RADIO user gets the selected station, the submitted primary flag, first and last name, mobile number and is_active; the station's primary contacts are cleared before the flag is set, and only when the flag changes to true; without clearing no other user changes |
| AccountViews.EditedUsersFrame | backend/accounts/views.py:863-891 | every other user keeps all its fields but the primary flag, which goes exactly when it belongs to the submitted station and the RADIO user's flag turns on; stations other than the user's old and new one keep their primary contacts |
| AccountViews.MovedFrame | backend/accounts/views.py:871-880 | storing the edited user after the optional clearing of one station keeps the key set, changes only primary flags of that station, and leaves the primary contacts of every other station, except the user's old and new one, as they were |
| AccountViews.EditUserCanLeaveTwoPrimaries | backend/accounts/views.py:867-880 | there is a store with one primary per station in which edit_user produces two primaries at a station |
| AccountViews.DomainCaseSlipsPastDuplicateCheck | backend/accounts/views.py:617-642 | an email differing from a stored one only in its domain's case is not in use as typed but is in use once normalised |
| AccountViews.Directory.SaveUser | backend/accounts/models.py:178-193 | the user is stored normalised; a RADIO user without a station or a duplicate email fails and stores nothing |
| AccountViews.Directory.SaveStation | backend/accounts/models.py:94-105 | deactivating a stored active station deactivates its users; any other save leaves users alone; an inactive new station fails with nothing stored |
| AccountViews.Directory.CreateUser | backend/accounts/models.py:8-15 | an empty email is a ValueError; otherwise the user is saved with its email normalised, and a normalised email already in use is an IntegrityError with nothing stored |
| AccountViews.Directory.CreateSuperuser | backend/accounts/models.py:17-29 | stores the superuser draft, with its email normalised, when its flags are valid and the save succeeds, else nothing |
| AccountViews.Directory.MakePrimary | backend/accounts/views.py:170-176 | the users become WithPrimary of the old users |
| AccountViews.Directory.SetPrimaryContactApi | backend/accounts/views.py:153-185 | succeeds exactly for an admin, an existing station and a user of that station; a missing user_id is 400; any failure changes no flag |
| AccountViews.Directory.SetPrimaryContact | backend/accounts/views.py:659-680 | succeeds exactly for an admin, an existing station and a user of that station, and then the user is the only primary; a failure changes nothing (the catch-all handler answers a missing record with 400) |
| AccountViews.Directory.StationCreate | backend/accounts/views.py:375-479 | an admin with a name creates the station; with an email and password also a primary RADIO user copying is_active; an email without a password, or an email in use as typed or once normalised, is refused with nothing created |
| AccountViews.Directory.StationTransaction | backend/accounts/views.py:430-466 | the station and, with both email and password, its primary contact are stored together; an inactive station or a normalised email in use stores neither |
| AccountViews.Directory.AddRadioUser | backend/accounts/views.py:624-644 | the existing primary is cleared before the user is created; two existing primaries fail with nothing changed; a normalised email in use fails with IntegrityError and leaves the old primary cleared |
| AccountViews.Directory.StationAddUser | backend/accounts/views.py:596-655 | admin, existing station, email and password required; an email in use as typed is refused before anything changes; one in use only once normalised fails with IntegrityError after the old primary is cleared; else AddedRadioUser with the user create_user builds, its email normalised |
| AccountViews.Directory.CreateStaffUser | backend/accounts/views.py:728-776 | admin, email and password required; an email in use as typed is refused, one in use once normalised is an IntegrityError; the stored user is STAFF with is_staff and its email normalised |
| AccountViews.Directory.CreateRadioUser | backend/accounts/views.py:780-847 | admin, email, password and an existing station required; an email in use as typed is refused before anything changes; one in use only once normalised fails with IntegrityError after the old primary is cleared; else AddedRadioUser with the user create_user builds, its email normalised |
| AccountViews.Directory.EditUser | backend/accounts/views.py:851-908 | an admin edit of an existing user; a RADIO user needs an existing station; the users become EditedUsers |
| AccountViews.Directory.AddUserApi | backend/accounts/views.py:138-150 | the station is injected; email and a non-blank password required (RadioUserCreateSerializer, serializers.py:67); staff_role and user_type are dropped; the validated RADIO user is stored with its email normalised; keeps at most one primary per station |
| Content.Publish | backend/newsroom/models.py:79-83 | status PUBLISHED and published_at = now, whatever the prior state |
| Content.PublishAgainRestamps | backend/newsroom/models.py:79-83 | publishing again only moves the stamp to the later time |
| Content.NewStory | backend/newsroom/models.py:58-67 | a new story is DRAFT, unstamped, EN, with no categories and no original |
| Content.NewBulletin | backend/newsroom/models.py:149-160 | a new bulletin is DRAFT, unstamped, EN, with an empty outro, no categories and no original |
| Content.NewShow | backend/newsroom/models.py:214-225 | a new show is DRAFT, unstamped, EN, with no categories |
| Content.NewTask | backend/newsroom/models.py:275 | a new task is TODO with no completion stamp |
| Content.Complete | backend/newsroom/models.py:288-292 | status COMPLETED and completed_at = now, nothing else changed |
| Content.WordCount | backend/newsroom/models.py:91-96 | 0 without content; otherwise the number of whitespace-separated words, which is 0 exactly for blank text |
| Categories.Ancestry | backend/newsroom/models.py:31-36 | the chain of parents from a root down to the category |
| Categories.FullPath | backend/newsroom/models.py:31-36 | a root's path is its name; every path ends with the category's name |
| Categories.FullPathJoinsAncestry | backend/newsroom/models.py:31-36 | the path is the names along the ancestry joined by " > " |
| Categories.CheckDescendantsSound | backend/newsroom/views.py:1085-1097 | when check_descendants answers true, the target is a proper descendant of the category |
| Categories.CheckDescendantsComplete | backend/newsroom/views.py:1085-1097 | every proper descendant makes check_descendants answer true |
| Categories.CheckDescendantsIffBelow | backend/newsroom/views.py:1085-1097 | check_descendants answers true exactly for the category's proper descendants |
| Categories.ReparentKeepsRanked | backend/newsroom/views.py:1080-1112 | a parent that exists and is neither the category nor a descendant keeps the tree free of cycles |
| Categories.RemoveLeafKeepsRanked | backend/newsroom/views.py:1142-1153 | deleting a category without children keeps the tree free of cycles |
| Categories.TreeChildren | backend/newsroom/serializers.py:37-41 | a node's children are exactly the categories whose parent it is |
| Categories.TreeIdsAreDescendants | backend/newsroom/serializers.py:37-41 | the serialized tree holds exactly the category and its descendants |
| BulletinRows.RowsOf | backend/newsroom/models.py:184-185 | a bulletin's listing holds exactly its rows |
| BulletinRows.WithoutBulletin | backend/newsroom/views.py:646 | deleting a bulletin's rows keeps exactly the other bulletins' rows |
| BulletinRows.HasRow | backend/newsroom/models.py:186 | whether a row for the pair already exists |
| BulletinRows.Retarget | backend/newsroom/views.py:739-744 | the copy has the same stories and orders under the new bulletin |
| BulletinRows.PlacedRows | backend/newsroom/views.py:649-656 | a row is placed exactly for an index of the list whose id names a story, with order equal to that index |
| BulletinRows.PlacedIncreasing | backend/newsroom/views.py:649-656 | placed rows have strictly increasing orders, each below the list length |
| BulletinRows.PlacedStories | backend/newsroom/views.py:649-656 | the placed stories are the resolvable ids in list order |
| BulletinRows.PlacedUnique | backend/newsroom/models.py:186 | without a repeated resolvable id the placed pairs are unique |
| BulletinRows.RepeatsBreakUnique | backend/newsroom/models.py:186 | a repeated resolvable id would place two rows for the same pair |
| BulletinRows.SkippedIdLeavesGap | backend/newsroom/views.py:649-656 | the ids [1,2,3,4] with story 3 missing give orders 0, 1 and 3 |
| BulletinRows.RowsOfWithout | backend/newsroom/views.py:646 | after the delete a bulletin lists nothing and every other bulletin lists what it did |
| BulletinRows.RebuildKeeps | backend/newsroom/views.py:646-656 | rebuilding a bulletin's rows keeps the pairs unique and every listing ordered, and the bulletin lists exactly the placed rows |
| BulletinRows.CopyKeeps | backend/newsroom/views.py:739-744 | copying a bulletin's rows to a new bulletin keeps the pairs unique and the listings ordered |
| Editorial.SetStoryField | backend/newsroom/serializers.py:146-147 | the named attribute takes the value; categories and published_at are untouched |
| Editorial.StoryLastWriteWins | backend/newsroom/serializers.py:146-147 | an attribute holds the value of its last entry in the validated data |
| Editorial.StoryUntouched | backend/newsroom/serializers.py:146-147 | an attribute no entry names keeps its value; categories and published_at never change |
| Editorial.SetBulletinField | backend/newsroom/serializers.py:259-260 | the named attribute takes the value; categories and published_at are untouched |
| Editorial.BulletinLastWriteWins | backend/newsroom/serializers.py:259-260 | an attribute holds the value of its last entry in the validated data |
| Editorial.BulletinUntouched | backend/newsroom/serializers.py:259-260 | an attribute no entry names keeps its value; categories and published_at never change |
| Editorial.SerializerPublishKeepsStamp | backend/newsroom/serializers.py:146-148 | setting status PUBLISHED through update leaves an unstamped story unstamped |
| Editorial.TranslationLanguages | backend/newsroom/views.py:449 | exactly the languages some translation of the story has |
| Editorial.Without | backend/newsroom/views.py:450 | the choices not taken, in order, and fewer of them when any is taken |
| Editorial.AvailableLanguages | backend/newsroom/views.py:449-450 | offered exactly: the languages other than the story's own that no translation has; at most two |
| Editorial.OwnLanguageNotOfferedButAccepted | backend/newsroom/views.py:411-438 | while no translation has the story's own language, the condition under which StoryTranslate accepts a POST of it, the page does not offer it |
| Editorial.ValidateTranslationRequest | backend/newsroom/serializers.py:371-385 | rejects a language a translation already has, and auto_assign false without a translator; otherwise returns the data |
| Editorial.StatusUpdated | backend/newsroom/views.py:1365-1370 | the status is set and completed_at is never changed |
| Editorial.StatusCompletedIsNotComplete | backend/newsroom/views.py:1365-1370 | marking a task COMPLETED here leaves it unstamped, unlike Task.complete |
| Editorial.Picked | backend/newsroom/views.py:545-547 | the submitted ids that name a category; none when nothing is submitted |
| NewsroomStore.Newsroom.PlaceStories | backend/newsroom/views.py:649-656 | the loop appends exactly the placed rows and keeps the row invariant; a repeated story stops it with IntegrityError and the rows of the prefix before it |
| NewsroomStore.Newsroom.CopyRows | backend/newsroom/views.py:739-744 | appends the original's rows retargeted to the translation, keeping the row invariant |
| NewsroomStore.Newsroom.ClearRows | backend/newsroom/views.py:646 | removes exactly the bulletin's rows; other listings unchanged |
| NewsroomStore.Newsroom.ReplaceRows | backend/newsroom/views.py:646-656 | the bulletin's rows become the placed rows; other listings are unchanged |
| NewsroomStore.Newsroom.StoryPublish | backend/newsroom/views.py:325-342 | sub-editor or above and an existing story: the story is published at now; otherwise nothing changes |
| NewsroomStore.Newsroom.BulletinPublish | backend/newsroom/views.py:690-707 | editor or above and an existing bulletin: it is published at now; otherwise nothing changes |
| NewsroomStore.Newsroom.ShowPublish | backend/newsroom/views.py:950-967 | editor or above and an existing show: it is published at now; otherwise nothing changes |
| NewsroomStore.Newsroom.StoryTranslate | backend/newsroom/views.py:402-438 | a language a translation already has is refused with no new record; otherwise a DRAFT copy of title and categories by the actor, linked to the original, with the original's text or "" |
| NewsroomStore.Newsroom.BulletinTranslate | backend/newsroom/views.py:709-744 | a language a translation already has is refused with no new record; otherwise a DRAFT copy by the actor with the same (story, order) rows |
| NewsroomStore.Newsroom.BulletinCreate | backend/newsroom/views.py:514-565 | title and intro required; the bulletin with its existing categories and its placed rows, or nothing at all on a repeated story |
| NewsroomStore.Newsroom.BulletinEdit | backend/newsroom/views.py:608-665 | title and intro required; fields overwritten, categories replaced, all rows replaced by the placed rows, other bulletins' rows unchanged; nothing changes on a repeated story |
| NewsroomStore.Newsroom.ShowEdit | backend/newsroom/views.py:887-935 | the creator or an editor; title and description required; fields overwritten and categories replaced |
| NewsroomStore.Newsroom.CategoryEdit | backend/newsroom/views.py:1045-1123 | name and slug required and the slug unused by others; a parent that is the category itself or a descendant is refused, a missing one is NotFound; on success the form is stored and the tree stays acyclic |
| NewsroomStore.Newsroom.CategoryDelete | backend/newsroom/views.py:1133-1158 | refused, with nothing removed, while the category has children or any story, bulletin or show; otherwise removed |
| NewsroomStore.Newsroom.VisibleTasks | backend/newsroom/views.py:1161-1179 | exactly the tasks the actor may view: all for editors, else those assigned to or by the actor |
| NewsroomStore.Newsroom.TaskUpdateStatus | backend/newsroom/views.py:1340-1379 | only the assignee or an editor; a non-empty note is stored, then the status is set; completed_at keeps its value |
| NewsroomStore.Newsroom.AddTaskNote | backend/newsroom/views.py:1381-1411 | editor, assignee or assigner; empty content refused; the note is appended |
| NewsroomStore.Newsroom.TaskCreate | backend/newsroom/serializers.py:358-361 | the new task's assigner is the requesting user, whatever was submitted |
| NewsroomStore.Newsroom.StoryDetailCreate | backend/newsroom/serializers.py:121-139 | the story from its fields and categories, and exactly one content record, "" when none was sent |
| NewsroomStore.Newsroom.StoryDetailUpdate | backend/newsroom/serializers.py:141-160 | the setattr loop, categories replaced only when sent, and text written (with the record created if missing) only when sent |
| NewsroomStore.Newsroom.BulletinDetailCreate | backend/newsroom/serializers.py:229-252 | rows only for resolvable ids, order equal to index; on a repeated story the bulletin and the earlier rows stay |
| NewsroomStore.Newsroom.BulletinDetailUpdate | backend/newsroom/serializers.py:254-284 | rows untouched without story_order, replaced by the index rule with it; categories replaced only when sent |

## Left out

- HTTP: requests, redirects, templates, flash messages, GET pages other
  than the translation language list, pagination, `icontains` search and
  list filters. Each view returns an `Outcome` or `Result` whose error
  kind stands for the message or status.
- Authentication, sessions, JWT issue and blacklisting, and password
  hashing and validators. `authenticate()` is a parameter of `Login`. A
  password is tested only for being empty.
- Emails.NormaliseEmail: lowers only the ASCII letters A-Z. Python's
  `str.lower()` also lowers other letters.
- Audio clips, show audio files and file URLs.
- Malformed UUID strings: the code raises a validation error for them,
  which a typed id cannot express.
- `None` submitted for a choice field (language, status): the fields are
  typed enumerations.
- The ordering of lists by name or date: maps have no order. The one order
  that matters, BulletinStory by `order`, is modelled.
- Concurrency, transaction isolation and races.
- Dashboards and their mocked statistics.
- `RadioStationSerializer`: it lists fields the model does not define.
- Routing tables, admin configuration, logging signals and the admin API
  wrappers, which hold no rules.
- NewsroomStore.Newsroom.CategoryEdit: ids are typed, so every parent id
  is in canonical form. The code's guards compare spellings, and the
  acyclicity this model proves holds only for canonically spelled ids.
- NewsroomStore.Newsroom.CategoryEdit: the form is given as a whole
  category record. Reading the check boxes (`== 'on'`) and the
  description default are not modelled.
- NewsroomStore.Newsroom.StoryDetailCreate and BulletinDetailCreate:
  category ids in a request are required to exist, because the
  serializer's related field rejects unknown ids before `create` runs.
  That validation is not modelled.
- `story_create`, `story_edit`, `show_create`, `category_create`,
  `task_create` and `task_detail` are outside this model; the same rules
  are covered through the serializer methods and the edit views above.
- Editorial.AvailableLanguages: models the story page; the bulletin page
  builds its list the same way and is not modelled separately.
