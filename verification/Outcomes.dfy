/** Outcomes shared by every module: optional values, and the exceptions the library and the
    framework below it raise. */
module Outcomes {

  datatype Option<+T> = None | Some(value: T)

  datatype Error =
    | OrganizationNotFound
    | OrganizationCannotBeUpdated
    | OrganizationAccessDenied
    | AmbiguousOrganization
    | IntegrityError
    | DatabaseError
    | DoesNotExist
    | MultipleObjectsReturned
    | ValueError
    | TypeError

  datatype Result<+T> = Success(value: T) | Failure(error: Error)
}
