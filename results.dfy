/** Option, Result and the error values the account service returns. */
module Results {

  datatype Option<+T> = None | Some(value: T)

  /** Every error the modelled code can produce. Message gives the text the Go code builds. */
  datatype Error =
    | NotInited(colName: string)   // Instance used before a collection was bound
    | MarshalFailed                // bson.Marshal refused the value (it is not a document)
    | NonSlice                     // interfaceSlice given something that is not a slice
    | EmptyBatch                   // the driver's InsertMany refuses zero documents
    | DuplicateKey                 // insert of an _id the collection already holds
    | ImmutableId                  // $set that would change a document's _id
    | NoDocuments                  // FindOneAndUpdate matched nothing
    | DocumentNotExisted           // QueryOne matched nothing
    | UserExisted                  // sign-up found the username or the email taken
    | PasswordNotMatched           // login with a wrong password
    | CurrentPasswordNotMatched    // password reset with a wrong current password
    | MissingAccessToken           // Authorization header not of the Bearer form
    | External(detail: string)     // error raised by a collaborator outside the model
  {
    function Message(): string {
      match this
      case NotInited(name) => name + " is not inited"
      case MarshalFailed => "cannot marshal value to a BSON document"
      case NonSlice => "InterfaceSlice() given a non-slice type"
      case EmptyBatch => "must provide at least one element in input slice"
      case DuplicateKey => "E11000 duplicate key error"
      case ImmutableId => "Performing an update on the path '_id' would modify the immutable field '_id'"
      case NoDocuments => "mongo: no documents in result"
      case DocumentNotExisted => "document is not existed"
      case UserExisted => "username or email is existed"
      case PasswordNotMatched => "password is not matched"
      case CurrentPasswordNotMatched => "current password is not matched"
      case MissingAccessToken => "missing access token"
      case External(detail) => detail
    }
  }

  datatype Result<+T> = Ok(value: T) | Err(error: Error) {
    predicate IsFailure() { Err? }

    function PropagateFailure<U>(): Result<U>
      requires Err?
    {
      Err(error)
    }

    function Extract(): T
      requires Ok?
    {
      value
    }
  }
}
