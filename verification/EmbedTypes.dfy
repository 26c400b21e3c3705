/** What the embedding models of pkg/embedding exchange. */
module EmbedTypes {
  import opened Wrappers

  type Vector = seq<real>

  /** A Go slice: `None` is the nil slice. */
  type Embedding = Option<Vector>

  datatype Failure =
    | Cancelled
    | DeadlineExceeded
    | Provider(message: string)
    | AllProvidersFailed(last: Failure)
    | AfterRetries(retries: nat, last: Failure)
    | WrongCount(got: nat, want: nat)
    | NilEmbedding(index: nat)

  datatype Reply = Embedded(vector: Embedding) | Failed(err: Failure)
}
