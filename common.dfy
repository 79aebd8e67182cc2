/** Shared vocabulary: identifiers of the stored records, the clock value
    passed into every operation, and the failure-carrying results that
    stand for the exceptions, error messages and HTTP error responses of
    the views. */
module Common {

  /** Primary keys. The source uses random UUIDs; the model treats them as
      opaque numbers and has the caller supply fresh ones. */
  type UserId = nat
  type StationId = nat
  type CategoryId = nat
  type StoryId = nat
  type BulletinId = nat
  type ShowId = nat
  type TaskId = nat

  /** A moment in time, as returned by timezone.now(). */
  type Time = int

  datatype Option<+T> = None | Some(value: T) {
    function GetOr(default: T): T {
      match this
      case Some(v) => v
      case None => default
    }
  }

  /** The ways an operation can be refused. */
  datatype Error =
    | PermissionDenied                 // a role check or decorator rejected the actor
    | NotFound                         // a looked-up record does not exist (404, DoesNotExist)
    | Required(field: string)          // a required input is missing or empty
    | Duplicate(field: string)         // the value is already taken (email, slug, language, primary contact)
    | SelfParent                       // a category cannot be its own parent
    | DescendantParent                 // a category cannot be moved below its own descendant
    | HasChildren                      // a category with child categories cannot be deleted
    | HasContent                       // a category still used by content cannot be deleted
    | IntegrityError                   // a database uniqueness or reference constraint failed
    | ValueError(message: string)      // a ValueError raised by model code
    | MultipleObjectsReturned          // a .get() matched more than one row

  datatype Result<+T> = Ok(value: T) | Err(error: Error)

  datatype Outcome = Pass | Fail(error: Error)
}
