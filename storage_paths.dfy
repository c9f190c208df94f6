/** How the pages name objects in storage buckets and find them again: the
    file extension taken from a picked file's name, the portfolio and avatar
    object keys, the public URL of an object, and the key recovered from a
    public URL when a portfolio image is deleted. */
module StoragePaths {
  import opened JsText

  /** `name.split('.').pop()`: the text after the last dot, or the whole name
      when it has no dot. */
  function FileExt(name: string): (ext: string)
    ensures '.' !in ext
    ensures '.' !in name ==> ext == name
    ensures |ext| <= |name| && ext == name[|name| - |ext|..]
    ensures '.' in name ==> |ext| < |name| && name[|name| - |ext| - 1] == '.'
  {
    SplitLast(name, '.');
    var parts := Split(name, '.');
    parts[|parts| - 1]
  }

  /** `${Date.now()}.${fileExt}`: the object name inside the user's folder. */
  function StampedName(now: nat, fileName: string): string {
    NatToDecimal(now) + ("." + FileExt(fileName))
  }

  /** `key` ends in `.ext`, and between its first `from` characters and that
      ending stands a non-empty run of digits without a leading zero (a lone
      `0` aside) that reads as `now`: the rendering of `now`. */
  predicate StampedWith(key: string, from: nat, ext: string, now: nat) {
    from + |ext| + 2 <= |key| && key[|key| - |ext| - 1..] == "." + ext &&
    var stamp := key[from..|key| - |ext| - 1];
    (forall i :: 0 <= i < |stamp| ==> IsDigit(stamp[i])) && (stamp[0] == '0' ==> |stamp| == 1) &&
    ParseDecimal(stamp) == now
  }

  /** The time stamp a key carries is exactly the decimal rendering of `now`. */
  lemma StampIsRendering(key: string, from: nat, ext: string, now: nat)
    requires StampedWith(key, from, ext, now)
    ensures key[from..|key| - |ext| - 1] == NatToDecimal(now)
  {
    CanonicalDecimal(key[from..|key| - |ext| - 1]);
  }

  /** `${userId}/${Date.now()}.${fileExt}`: the portfolio object key, in the
      user's folder; after the folder comes the time stamp, a point and the
      name's extension, with no further `/` when the uploaded name has none. */
  function PortfolioKey(userId: string, now: nat, fileName: string): (key: string)
    ensures |key| > |userId| + 1 && key[..|userId| + 1] == userId + "/"
    ensures '/' !in fileName ==> '/' !in key[|userId| + 1..]
    ensures StampedWith(key, |userId| + 1, FileExt(fileName), now)
  {
    var head := userId + "/";
    var ext := FileExt(fileName);
    StampedLayout(head, now, ext);
    PortfolioFileNameHasNoSlash(now, fileName);
    var key := head + (NatToDecimal(now) + ("." + ext));
    assert key[|head|..] == StampedName(now, fileName);
    key
  }

  /** Uploads at different times get different portfolio keys. */
  lemma PortfolioKeysDiffer(userId: string, now1: nat, now2: nat, fileName: string)
    requires now1 != now2
    ensures PortfolioKey(userId, now1, fileName) != PortfolioKey(userId, now2, fileName)
  {
  }

  /** `avatar-${userId}-${Date.now()}.${fileExt}`: the avatar object key,
      the time stamp between `avatar-<user>-` and the name's extension; at
      the bucket root when the user id and the file name have no `/`. */
  function AvatarKey(userId: string, now: nat, fileName: string): (key: string)
    ensures |key| > |userId| + 8 && key[..|userId| + 8] == "avatar-" + userId + "-"
    ensures '/' !in userId && '/' !in fileName ==> '/' !in key
    ensures StampedWith(key, |userId| + 8, FileExt(fileName), now)
  {
    var head := "avatar-" + userId + "-";
    var ext := FileExt(fileName);
    StampedLayout(head, now, ext);
    ExtHasNoSlash(fileName);
    assert |head| == |userId| + 8;
    assert '/' !in userId ==> '/' !in head;
    var key := head + (NatToDecimal(now) + ("." + ext));
    assert key[..|head|] == head && StampedWith(key, |head|, ext, now);
    key
  }

  /** Avatars uploaded at different times get different keys. */
  lemma AvatarKeysDiffer(userId: string, now1: nat, now2: nat, fileName: string)
    requires now1 != now2
    ensures AvatarKey(userId, now1, fileName) != AvatarKey(userId, now2, fileName)
  {
  }

  /** The public URL the storage client gives for `key` in a bucket whose
      public address is `bucketBase`. */
  function PublicUrl(bucketBase: string, key: string): string {
    bucketBase + "/" + key
  }

  /** `url.split('/').slice(-2).join('/')`: the last two `/`-separated
      segments of the URL (the whole URL when it has no `/`). */
  function KeyFromUrl(url: string): (key: string)
    ensures '/' !in url ==> key == url
  {
    Join(TakeLast(Split(url, '/'), 2), '/')
  }

  /** The time stamp and extension part of a portfolio key has no `/` when
      the file name has none. */
  lemma PortfolioFileNameHasNoSlash(now: nat, fileName: string)
    ensures '/' !in fileName ==> '/' !in StampedName(now, fileName)
  {
    var ext := FileExt(fileName);
    var d := NatToDecimal(now);
    assert forall i :: 0 <= i < |ext| ==> ext[i] == fileName[|fileName| - |ext| + i];
    assert forall i :: 0 <= i < |d| ==> IsDigit(d[i]);
  }

  /** A key made of a prefix, the rendering of `now`, a point and `ext`
      starts with the prefix, ends with the point and `ext`, and holds `now`
      as its time stamp. */
  lemma StampedLayout(head: string, now: nat, ext: string)
    ensures var key := head + (NatToDecimal(now) + ("." + ext));
      key[..|head|] == head && StampedWith(key, |head|, ext, now) &&
      ('/' !in head && '/' !in ext ==> '/' !in key)
  {
    var d := NatToDecimal(now);
    assert '/' !in d by {
      assert forall i :: 0 <= i < |d| ==> IsDigit(d[i]);
    }
    ThreeParts(head, d, "." + ext);
    DecimalRoundTrip(now);
  }

  /** The extension of a name without `/` has none either. */
  lemma ExtHasNoSlash(fileName: string)
    ensures '/' !in fileName ==> '/' !in FileExt(fileName)
  {
    var ext := FileExt(fileName);
    assert forall i :: 0 <= i < |ext| ==> ext[i] == fileName[|fileName| - |ext| + i];
  }

  /** A string built from three pieces starts with the first, has the
      second in the middle, ends with the last, and holds a `/` only when one
      of them does. */
  lemma ThreeParts(a: string, b: string, c: string)
    ensures var s := a + (b + c);
      s[..|a|] == a && s[|a|..|s| - |c|] == b && s[|s| - |c|..] == c &&
      ('/' !in a && '/' !in b && '/' !in c ==> '/' !in s)
  {
  }

  lemma SeqAssoc3(a: string, b: string, c: string, d: string)
    ensures a + (b + c + d) == a + b + c + d
  {
  }

  /** A URL ending in `folder/file`, both free of `/`, gives back
      `folder/file`, whatever comes before. */
  lemma KeyOfUrlEndingInKey(base: string, folder: string, file: string)
    requires '/' !in folder && '/' !in file
    ensures KeyFromUrl(base + "/" + folder + "/" + file) == folder + "/" + file
  {
    var url := base + "/" + folder + "/" + file;
    assert url == (base + "/" + folder) + "/" + file;
    SplitAround(base + "/" + folder, '/', file);
    SplitAround(base, '/', folder);
    var parts := Split(url, '/');
    assert Split(folder, '/') == [folder] && Split(file, '/') == [file];
    assert parts == Split(base, '/') + [folder] + [file];
    assert TakeLast(parts, 2) == [folder, file];
    assert Join([file], '/') == file;
    assert Join([folder, file], '/') == folder + "/" + Join([file], '/');
  }

  /** A URL with exactly one `/`, `folder/file`, is its own key. */
  lemma KeyOfOneSlashUrl(folder: string, file: string)
    requires '/' !in folder && '/' !in file
    ensures KeyFromUrl(folder + "/" + file) == folder + "/" + file
  {
    SplitAround(folder, '/', file);
    assert Split(folder, '/') == [folder] && Split(file, '/') == [file];
    assert Split(folder + "/" + file, '/') == [folder, file];
    assert Join([file], '/') == file;
    assert Join([folder, file], '/') == folder + "/" + Join([file], '/');
  }

  /** The key recovered from the public URL of a portfolio image is the key it
      was uploaded under, when the user id and the file name have no `/`. */
  lemma KeyFromPublicUrlRoundTrip(bucketBase: string, userId: string, now: nat, fileName: string)
    requires '/' !in userId && '/' !in fileName
    ensures KeyFromUrl(PublicUrl(bucketBase, PortfolioKey(userId, now, fileName))) ==
            PortfolioKey(userId, now, fileName)
  {
    var file := StampedName(now, fileName);
    var key := PortfolioKey(userId, now, fileName);
    PortfolioFileNameHasNoSlash(now, fileName);
    KeyOfUrlEndingInKey(bucketBase, userId, file);
    assert key == userId + "/" + file;
    calc {
      PublicUrl(bucketBase, key);
      bucketBase + "/" + (userId + "/" + file);
      { SeqAssoc3(bucketBase + "/", userId, "/", file); }
      bucketBase + "/" + userId + "/" + file;
    }
  }
}
