/** What the components of entities hold. */
module Components {
  import opened Views

  type ClientId = nat

  /** A position is known by its chunk only; an event that has nothing to tell is that it happened. */
  datatype Value =
    | OfClient(client: ClientId)
    | InChunk(chunk: Chunk)
    | Viewing(view: View)
    | Changing(update: ViewUpdate)
    | Happened
    | Number(number: nat)
}
