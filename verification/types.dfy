/** Identifiers and the participant record shared by every other module. */
module Types {

  /** Authenticated user identifier; the empty string is a legal value. */
  type UserID = string

  /** Room identifier (the key of the hub's room index). */
  type RoomID = string

  datatype Option<+T> = None | Some(value: T)

  /** One connected participant. `id` stands for the identity of the
      connection object: two connections of the same user are different
      clients, exactly as two distinct pointers are in the relay. */
  datatype Client = Client(id: nat, userID: UserID, roomID: RoomID)
}
