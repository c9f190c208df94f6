/** The portfolio gallery page: uploading an image (size gate, object key,
    upload, public URL, table insert) and deleting one (key from URL, object
    removal, row deletion, local list update). */
module Gallery {
  import opened Maybe
  import opened JsText
  import opened Seqs
  import opened Records
  import opened StoragePaths

  /** Two MiB: larger files are refused before anything else happens. */
  const MaxUploadBytes: nat := 2 * 1024 * 1024

  const TooLargeMsg := "File terlalu besar. Maksimal 2MB."
  const SessionEndedMsg := "Sesi berakhir, silakan login kembali."
  const NoBucketMsg := "Bucket 'portfolio-images' belum dibuat di Supabase Storage."
  const UploadedMsg := "Foto portfolio berhasil ditambahkan!"
  const DeletedMsg := "Foto telah dihapus."
  const DeleteFailedMsg := "Gagal menghapus foto."

  predicate TooLarge(file: FileInfo) {
    file.size > MaxUploadBytes
  }

  /** The banner text for a failed upload: an error whose message contains
      "Bucket not found" names the missing bucket, any other error shows its
      own message. */
  function UploadErrorMessage(error: string): (msg: string)
    ensures (exists i :: OccursAt(error, "Bucket not found", i)) ==> msg == NoBucketMsg
    ensures !(exists i :: OccursAt(error, "Bucket not found", i)) ==> msg == error
  {
    if Contains(error, "Bucket not found") then NoBucketMsg else error
  }

  predicate IsOtherImage(id: string, img: PortfolioItem) {
    img.id != id
  }

  function OtherImages(id: string): PortfolioItem -> bool {
    img => IsOtherImage(id, img)
  }

  /** `images.filter(img => img.id !== id)` */
  function WithoutImage(images: seq<PortfolioItem>, id: string): (r: seq<PortfolioItem>)
    ensures forall img :: img in r <==> img in images && img.id != id
  {
    Filter(images, OtherImages(id))
  }

  /** The images that stay keep their order and multiplicity. */
  lemma WithoutImageKeepsOrder(images: seq<PortfolioItem>, id: string)
    ensures IsSubsequence(WithoutImage(images, id), images)
    ensures forall img :: multiset(WithoutImage(images, id))[img] ==
                          if img.id == id then 0 else multiset(images)[img]
  {
    FilterIsSubsequence(images, OtherImages(id));
    forall img ensures multiset(WithoutImage(images, id))[img] ==
                       if img.id == id then 0 else multiset(images)[img] {
      FilterCounts(images, OtherImages(id), img);
    }
  }

  /** Exactly two MiB passes the size gate; one byte more does not. */
  lemma SizeGateBoundary(name: string)
    ensures !TooLarge(FileInfo(name, 2097152)) && TooLarge(FileInfo(name, 2097153))
  {
  }

  class GalleryPage {
    var images: seq<PortfolioItem>
    var loading: bool
    var uploading: bool
    var status: Status

    constructor ()
      ensures images == [] && loading && !uploading && status == Idle
    {
      images := [];
      loading := true;
      uploading := false;
      status := Idle;
    }

    /** `fetchGallery`: the user's rows replace the list (`data || []`); with
        no signed-in user, redirect to login; a failed query keeps the list. */
    method FetchGallery(user: Option<string>, fetched: Result<Option<seq<PortfolioItem>>>)
      returns (redirectToLogin: bool)
      modifies this`images, this`loading
      ensures redirectToLogin == user.None?
      ensures images == if user.Some? && fetched.Ok?
                        then (if fetched.value.Some? then fetched.value.value else [])
                        else old(images)
      ensures !loading
    {
      redirectToLogin := false;
      if user.None? {
        redirectToLogin := true;
      } else if fetched.Ok? {
        images := if fetched.value.Some? then fetched.value.value else [];
      }
      loading := false;
    }

    /** `handleUpload`. The size gate comes first and, when it refuses, only
        the banner changes. Otherwise the object is uploaded under
        `<user>/<now>.<ext>`; only after a successful upload is its public URL
        inserted into the `portfolio` table, and only after a successful insert
        is the list re-fetched. The image list itself is not touched here. */
    method HandleUpload(file: Option<FileInfo>, user: Option<string>, now: nat, bucketBase: string,
                        uploadError: Option<string>, insertError: Option<string>)
      returns (effects: seq<Effect>)
      modifies this`uploading, this`status
      ensures file.None? ==> effects == [] && uploading == old(uploading) && status == old(status)
      ensures file.Some? && TooLarge(file.value) ==>
        effects == [] && uploading == old(uploading) && status == Failure(TooLargeMsg)
      ensures file.Some? && !TooLarge(file.value) ==> !uploading
      ensures file.Some? && !TooLarge(file.value) && user.None? ==>
        effects == [] && status == Failure(SessionEndedMsg)
      ensures file.Some? && !TooLarge(file.value) && user.Some? && uploadError.Some? ==>
        effects == [StorageUpload(PortfolioKey(user.value, now, file.value.name))] &&
        status == Failure(UploadErrorMessage(uploadError.value))
      ensures file.Some? && !TooLarge(file.value) && user.Some? && uploadError.None? && insertError.Some? ==>
        var key := PortfolioKey(user.value, now, file.value.name);
        effects == [StorageUpload(key), DbInsert(user.value, PublicUrl(bucketBase, key))] &&
        status == Failure(insertError.value)
      ensures file.Some? && !TooLarge(file.value) && user.Some? && uploadError.None? && insertError.None? ==>
        var key := PortfolioKey(user.value, now, file.value.name);
        effects == [StorageUpload(key), DbInsert(user.value, PublicUrl(bucketBase, key)), Refetch] &&
        status == Success(UploadedMsg)
    {
      effects := [];
      if file.None? {
        return;
      }
      if TooLarge(file.value) {
        status := Failure(TooLargeMsg);
        return;
      }
      uploading := true;
      status := Idle;
      if user.None? {
        status := Failure(SessionEndedMsg);
      } else {
        var key := PortfolioKey(user.value, now, file.value.name);
        if uploadError.Some? {
          effects := [StorageUpload(key)];
          status := Failure(UploadErrorMessage(uploadError.value));
        } else {
          var url := PublicUrl(bucketBase, key);
          if insertError.Some? {
            effects := [StorageUpload(key), DbInsert(user.value, url)];
            status := Failure(insertError.value);
          } else {
            effects := [StorageUpload(key), DbInsert(user.value, url), Refetch];
            status := Success(UploadedMsg);
          }
        }
      }
      uploading := false;
    }

    /** `deleteImage`. After confirmation the object named by the URL's last
        two segments is removed first; a storage error stops there. Only then
        is the row deleted, and only when both succeed does the list lose the
        image with that id. */
    method DeleteImage(id: string, url: string, confirmed: bool,
                       storageError: Option<string>, dbError: Option<string>)
      returns (effects: seq<Effect>)
      modifies this`images, this`status
      ensures !confirmed ==> effects == [] && images == old(images) && status == old(status)
      ensures confirmed && storageError.Some? ==> effects == [StorageRemove(KeyFromUrl(url))]
      ensures confirmed && storageError.None? ==> effects == [StorageRemove(KeyFromUrl(url)), DbDelete(id)]
      ensures confirmed && storageError.None? && dbError.None? ==>
        images == WithoutImage(old(images), id) && status == Success(DeletedMsg)
      ensures confirmed && (storageError.Some? || dbError.Some?) ==>
        images == old(images) && status == Failure(DeleteFailedMsg)
    {
      effects := [];
      if !confirmed {
        return;
      }
      var key := KeyFromUrl(url);
      effects := [StorageRemove(key)];
      if storageError.Some? {
        status := Failure(DeleteFailedMsg);
        return;
      }
      effects := [StorageRemove(key), DbDelete(id)];
      if dbError.Some? {
        status := Failure(DeleteFailedMsg);
        return;
      }
      images := WithoutImage(images, id);
      status := Success(DeletedMsg);
    }
  }
}
