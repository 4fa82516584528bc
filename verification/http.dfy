/**
 * A route handler's response, reduced to what the clients read: a 200 with
 * a JSON body, or an error status with an `error` message.
 */
module Http {

  datatype Reply<+T> = Ok(body: T) | Error(status: nat, error: string)

  const NoFile: string := "No file provided"
  const NotAnImage: string := "File must be an image"
  const UserNotFound: string := "User not found"
}
