/** The row shapes the pages read from and write to the backend, the status
    banner the pages show, and the backend side effects a handler requests. */
module Records {
  import opened Maybe

  /** A row of the `providers` table as the pages read it: every column may
      be missing (`null` / `undefined`). */
  datatype ProviderRecord = ProviderRecord(
    userId: Option<string>,
    name: Option<string>,
    category: Option<string>,
    whatsappNumber: Option<string>,
    bio: Option<string>,
    avatarUrl: Option<string>,
    location: Option<string>,
    city: Option<string>,
    features: Option<seq<string>>)

  /** A row of the `reviews` table. */
  datatype Review = Review(id: string, providerId: string, userName: string, rating: int, comment: string)

  /** A row of the `portfolio` table. */
  datatype PortfolioItem = PortfolioItem(id: string, userId: string, imageUrl: string)

  /** The `{ type, msg }` banner: `{ '', '' }`, a success or an error. */
  datatype Status = Idle | Success(msg: string) | Failure(msg: string)

  /** A file picked in a file input: its name and size in bytes. */
  datatype FileInfo = FileInfo(name: string, size: nat)

  /** A call a handler makes on the storage bucket or a table, in the order made. */
  datatype Effect =
    | StorageUpload(key: string)
    | StorageRemove(key: string)
    | DbInsert(userId: string, imageUrl: string)
    | DbDelete(id: string)
    | Refetch
}
