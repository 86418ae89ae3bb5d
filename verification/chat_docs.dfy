// A stored chat message.
module ChatDocs {
  datatype Doc = Doc(id: nat, room: string, user: string, createdAt: int, text: string, deleted: bool, editedAt: int)
}
