/** The profile edit page: the form, its bounded list of selling points
    ("keunggulan", at most four), loading the stored profile into the form,
    uploading an avatar, and saving the form as an upsert keyed by the
    owner's user id. */
module ProfileEditor {
  import opened Maybe
  import opened JsText
  import opened Seqs
  import opened Records
  import opened StoragePaths

  /** The add button is disabled, and adding is a no-op, from this many entries. */
  const MaxFeatures: nat := 4

  const AvatarChosenMsg := "Foto profil terpilih!"
  const AvatarFailedMsg := "Gagal upload foto"
  const SavedMsg := "Perubahan berhasil disimpan!"
  const LoginAgainMsg := "Silakan login kembali."

  /** The form state of the page. */
  datatype ProfileForm = ProfileForm(
    name: string,
    category: string,
    whatsappNumber: string,
    bio: string,
    avatarUrl: string,
    features: seq<string>)

  const EmptyForm := ProfileForm("", "", "", "", "", [])

  /** The row sent to the `providers` upsert. */
  datatype ProviderRow = ProviderRow(
    userId: string,
    name: string,
    category: string,
    whatsappNumber: string,
    bio: string,
    avatarUrl: string,
    features: seq<string>,
    updatedAt: nat)

  // ---------------------------------------------------------------------------
  // The feature list
  // ---------------------------------------------------------------------------

  /** `addFeature`: one empty entry appended below the cap, nothing otherwise. */
  function WithAddedFeature(features: seq<string>): (r: seq<string>)
    ensures |features| < MaxFeatures ==>
      |r| == |features| + 1 && r[..|features|] == features && r[|features|] == ""
    ensures |features| >= MaxFeatures ==> r == features
    ensures |features| <= MaxFeatures ==> |r| <= MaxFeatures
  {
    if |features| < MaxFeatures then features + [""] else features
  }

  /** `updateFeature(index, value)` on an entry the page renders. */
  function WithUpdatedFeature(features: seq<string>, index: nat, value: string): (r: seq<string>)
    requires index < |features|
    ensures |r| == |features| && r[index] == value
    ensures forall j :: 0 <= j < |features| && j != index ==> r[j] == features[j]
  {
    features[index := value]
  }

  /** `features.filter((_, i) => i !== index)`, walking the list as the filter
      does: the entry at `index` is dropped, the others keep their order, and
      an index outside the list drops nothing. */
  function WithoutFeature(features: seq<string>, index: int): (r: seq<string>)
    ensures 0 <= index < |features| ==> r == features[..index] + features[index + 1..]
    ensures !(0 <= index < |features|) ==> r == features
  {
    if features == [] then []
    else
      var rest := WithoutFeature(features[1..], index - 1);
      assert features == [features[0]] + features[1..];
      if index == 0 then rest else [features[0]] + rest
  }

  /** One edit the page's controls can make to the feature list. */
  datatype FeatureEdit = Add | Update(at: nat, value: string) | Remove(index: int)

  /** An update is only made on an entry the page renders. */
  predicate CanApply(features: seq<string>, edit: FeatureEdit) {
    edit.Update? ==> edit.at < |features|
  }

  function Apply(features: seq<string>, edit: FeatureEdit): seq<string>
    requires CanApply(features, edit)
  {
    match edit
    case Add => WithAddedFeature(features)
    case Update(i, v) => WithUpdatedFeature(features, i, v)
    case Remove(i) => WithoutFeature(features, i)
  }

  predicate CanApplyAll(features: seq<string>, edits: seq<FeatureEdit>)
    decreases |edits|
  {
    edits == [] || (CanApply(features, edits[0]) && CanApplyAll(Apply(features, edits[0]), edits[1..]))
  }

  function ApplyAll(features: seq<string>, edits: seq<FeatureEdit>): seq<string>
    requires CanApplyAll(features, edits)
    decreases |edits|
  {
    if edits == [] then features else ApplyAll(Apply(features, edits[0]), edits[1..])
  }

  /** Starting from at most four entries, no sequence of add, update and
      remove ever gives more than four. */
  lemma {:induction false} EditsKeepFeatureBound(features: seq<string>, edits: seq<FeatureEdit>)
    requires |features| <= MaxFeatures
    requires CanApplyAll(features, edits)
    ensures |ApplyAll(features, edits)| <= MaxFeatures
    decreases |edits|
  {
    if edits != [] {
      EditsKeepFeatureBound(Apply(features, edits[0]), edits[1..]);
    }
  }

  // ---------------------------------------------------------------------------
  // What is persisted
  // ---------------------------------------------------------------------------

  /** The test `f => f.trim() !== ""` the save filters with. */
  predicate IsFilled(f: string) {
    !IsBlank(f)
  }

  /** `features.filter(f => f.trim() !== "")`: the entries kept on save. */
  function PersistedFeatures(features: seq<string>): (r: seq<string>)
    ensures |r| <= |features|
    ensures forall f :: f in r ==> f in features && !IsBlank(f)
    ensures forall f :: f in features && !IsBlank(f) ==> f in r
  {
    Filter(features, IsFilled)
  }

  /** The persisted entries are the non-blank entries, in their order, with
      their original (untrimmed) text and multiplicity. */
  lemma PersistedFeaturesExact(features: seq<string>)
    ensures IsSubsequence(PersistedFeatures(features), features)
    ensures forall f :: multiset(PersistedFeatures(features))[f] ==
                        if IsBlank(f) then 0 else multiset(features)[f]
  {
    FilterIsSubsequence(features, IsFilled);
    forall f ensures multiset(PersistedFeatures(features))[f] ==
                     if IsBlank(f) then 0 else multiset(features)[f] {
      FilterCounts(features, IsFilled, f);
    }
  }

  /** An entry made only of whitespace is dropped on save. */
  lemma BlankEntry(s: string)
    requires forall i :: 0 <= i < |s| ==> IsWhitespace(s[i])
    ensures !IsFilled(s)
  {
    BlankIffAllWhitespace(s);
  }

  /** An entry with a non-whitespace character is kept on save. */
  lemma FilledEntry(s: string, k: nat)
    requires k < |s| && !IsWhitespace(s[k])
    ensures IsFilled(s)
  {
    BlankIffAllWhitespace(s);
  }

  lemma PersistedOfFour(a: string, b: string, c: string, d: string)
    requires !IsFilled(a) && !IsFilled(b) && IsFilled(c) && IsFilled(d)
    ensures PersistedFeatures([a, b, c, d]) == [c, d]
  {
    var fs := [a, b, c, d];
    assert fs[1..] == [b, c, d] && fs[1..][1..] == [c, d] && fs[1..][1..][1..] == [d] && [d][1..] == [];
    assert Filter([d], IsFilled) == [d];
    assert Filter([c, d], IsFilled) == [c, d];
    assert Filter([b, c, d], IsFilled) == [c, d];
    assert Filter(fs, IsFilled) == [c, d];
  }

  /** The worked example: blank entries go, the padded entry is stored as typed. */
  lemma PersistedFeaturesExample()
    ensures PersistedFeatures(["", " ", "Fast", "  Reliable  "]) == ["Fast", "  Reliable  "]
  {
    assert !IsFilled("") && !IsFilled(" ") && IsFilled("Fast") && IsFilled("  Reliable  ") by {
      BlankEntry("");
      assert IsWhitespace(" "[0]);
      BlankEntry(" ");
      FilledEntry("Fast", 0);
      FilledEntry("  Reliable  ", 2);
    }
    PersistedOfFour("", " ", "Fast", "  Reliable  ");
  }

  /** The row the save sends for user `userId` at time `now`: the form's
      text fields as typed, only its non-blank features, in order, and the
      time of the save. */
  function RowFor(userId: string, form: ProfileForm, now: nat): (row: ProviderRow)
    ensures row.userId == userId && row.updatedAt == now
    ensures row.name == form.name && row.category == form.category &&
            row.whatsappNumber == form.whatsappNumber && row.bio == form.bio &&
            row.avatarUrl == form.avatarUrl
    ensures row.features == PersistedFeatures(form.features)
    ensures |row.features| <= |form.features|
    ensures forall f :: f in row.features <==> f in form.features && !IsBlank(f)
    ensures IsSubsequence(row.features, form.features)
  {
    PersistedFeaturesExact(form.features);
    ProviderRow(userId, form.name, form.category, form.whatsappNumber, form.bio,
                form.avatarUrl, PersistedFeatures(form.features), now)
  }

  /** The `providers` table after an upsert with conflict target `user_id`:
      the row for that user is replaced (or added) and no other row changes. */
  function Upsert(table: map<string, ProviderRow>, row: ProviderRow): (t: map<string, ProviderRow>)
    ensures t.Keys == table.Keys + {row.userId}
    ensures row.userId in t && t[row.userId] == row
    ensures forall k :: k in table && k != row.userId ==> k in t && t[k] == table[k]
  {
    table[row.userId := row]
  }

  /** Saving the same form twice leaves the table as saving it once at the
      later time: one record for the user, differing from the first save
      only in `updated_at`. */
  lemma SaveTwiceIsSaveOnce(table: map<string, ProviderRow>, userId: string, form: ProfileForm, t1: nat, t2: nat)
    ensures Upsert(Upsert(table, RowFor(userId, form, t1)), RowFor(userId, form, t2)) ==
            Upsert(table, RowFor(userId, form, t2))
    ensures Upsert(table, RowFor(userId, form, t2))[userId] ==
            Upsert(table, RowFor(userId, form, t1))[userId].(updatedAt := t2)
  {
    var r1, r2 := RowFor(userId, form, t1), RowFor(userId, form, t2);
    var once := Upsert(table, r2);
    var twice := Upsert(Upsert(table, r1), r2);
    assert once.Keys == twice.Keys;
    assert forall k :: k in once ==> once[k] == twice[k];
  }

  /** A saved form whose feature list stayed within the cap stores at most
      four features. */
  lemma SavedFeaturesWithinBound(userId: string, form: ProfileForm, now: nat)
    requires |form.features| <= MaxFeatures
    ensures |RowFor(userId, form, now).features| <= MaxFeatures
  {
  }

  // ---------------------------------------------------------------------------
  // Loading
  // ---------------------------------------------------------------------------

  /** The form filled from a stored row: each text column through `|| ''`,
      the feature list through `|| []`. A missing column becomes the empty
      value; a present one is taken as stored. */
  function LoadedForm(row: ProviderRecord): (f: ProfileForm)
    ensures f.name == (if row.name.Some? then row.name.value else "")
    ensures f.category == (if row.category.Some? then row.category.value else "")
    ensures f.whatsappNumber == (if row.whatsappNumber.Some? then row.whatsappNumber.value else "")
    ensures f.bio == (if row.bio.Some? then row.bio.value else "")
    ensures f.avatarUrl == (if row.avatarUrl.Some? then row.avatarUrl.value else "")
    ensures f.features == (if row.features.Some? then row.features.value else [])
  {
    ProfileForm(
      Or(row.name, ""), Or(row.category, ""), Or(row.whatsappNumber, ""),
      Or(row.bio, ""), Or(row.avatarUrl, ""),
      if row.features.Some? then row.features.value else [])
  }

  /** The stored row as the next load reads it back (columns the save does
      not write read as missing). */
  function ReadBack(row: ProviderRow): ProviderRecord {
    ProviderRecord(Some(row.userId), Some(row.name), Some(row.category), Some(row.whatsappNumber),
                   Some(row.bio), Some(row.avatarUrl), None, None, Some(row.features))
  }

  /** Saving a form and loading it again gives the same form, with only the
      blank feature entries gone; a form without blank entries comes back
      unchanged. */
  lemma {:induction false} SaveThenLoad(userId: string, form: ProfileForm, now: nat)
    ensures LoadedForm(ReadBack(RowFor(userId, form, now))) ==
            form.(features := PersistedFeatures(form.features))
    ensures (forall i :: 0 <= i < |form.features| ==> !IsBlank(form.features[i])) ==>
            LoadedForm(ReadBack(RowFor(userId, form, now))) == form
  {
    if forall i :: 0 <= i < |form.features| ==> !IsBlank(form.features[i]) {
      FilterAllPass(form.features, IsFilled);
    }
  }

  // ---------------------------------------------------------------------------
  // The page
  // ---------------------------------------------------------------------------

  class EditProfilePage {
    var form: ProfileForm
    var loading: bool
    var saving: bool
    var status: Status

    constructor ()
      ensures form == EmptyForm && loading && !saving && status == Idle
    {
      form := EmptyForm;
      loading := true;
      saving := false;
      status := Idle;
    }

    /** `fetchProfile`: with no signed-in user, redirect to the login page;
        a stored row replaces the form; no row or a failed query keeps it.
        Loading ends in every case. */
    method FetchProfile(user: Option<string>, fetched: Result<Option<ProviderRecord>>)
      returns (redirectToLogin: bool)
      modifies this`form, this`loading
      ensures redirectToLogin == user.None?
      ensures form == if user.Some? && fetched.Ok? && fetched.value.Some?
                      then LoadedForm(fetched.value.value) else old(form)
      ensures !loading
    {
      redirectToLogin := false;
      if user.None? {
        redirectToLogin := true;
      } else if fetched.Ok? && fetched.value.Some? {
        form := LoadedForm(fetched.value.value);
      }
      loading := false;
    }

    method AddFeature()
      modifies this`form
      ensures form == old(form).(features := WithAddedFeature(old(form.features)))
      ensures |old(form.features)| <= MaxFeatures ==> |form.features| <= MaxFeatures
    {
      if |form.features| < MaxFeatures {
        form := form.(features := form.features + [""]);
      }
    }

    method UpdateFeature(index: nat, value: string)
      requires index < |form.features|
      modifies this`form
      ensures form == old(form).(features := WithUpdatedFeature(old(form.features), index, value))
    {
      var copy := form.features;
      copy := copy[index := value];
      form := form.(features := copy);
    }

    method RemoveFeature(index: int)
      modifies this`form
      ensures form == old(form).(features := WithoutFeature(old(form.features), index))
    {
      form := form.(features := WithoutFeature(form.features, index));
    }

    /** `handleAvatarUpload`: no file, nothing happens; otherwise the avatar
        is stored under `avatar-<user>-<now>.<ext>` and, only when that
        succeeds, its public URL becomes the form's avatar. */
    method HandleAvatarUpload(file: Option<FileInfo>, user: Option<string>, now: nat,
                              bucketBase: string, uploadError: Option<string>)
      returns (effects: seq<Effect>)
      modifies this`form, this`saving, this`status
      ensures file.None? ==> effects == [] && form == old(form) && saving == old(saving) && status == old(status)
      ensures file.Some? ==> !saving
      ensures file.Some? && user.None? ==> effects == [] && form == old(form) && status == Failure(AvatarFailedMsg)
      ensures file.Some? && user.Some? ==>
        effects == [StorageUpload(AvatarKey(user.value, now, file.value.name))]
      ensures file.Some? && user.Some? && uploadError.Some? ==>
        form == old(form) && status == Failure(AvatarFailedMsg)
      ensures file.Some? && user.Some? && uploadError.None? ==>
        form == old(form).(avatarUrl := PublicUrl(bucketBase, AvatarKey(user.value, now, file.value.name))) &&
        status == Success(AvatarChosenMsg)
    {
      effects := [];
      if file.None? {
        return;
      }
      saving := true;
      if user.None? {
        status := Failure(AvatarFailedMsg);
      } else {
        var key := AvatarKey(user.value, now, file.value.name);
        effects := [StorageUpload(key)];
        if uploadError.Some? {
          status := Failure(AvatarFailedMsg);
        } else {
          form := form.(avatarUrl := PublicUrl(bucketBase, key));
          status := Success(AvatarChosenMsg);
        }
      }
      saving := false;
    }

    /** `handleSubmit`: with a signed-in user, the form is sent as one upsert
        row (blank features dropped); the banner reports the outcome and the
        form itself is not changed. */
    method HandleSubmit(user: Option<string>, now: nat, upsertError: Option<string>)
      returns (sent: Option<ProviderRow>)
      modifies this`saving, this`status
      ensures sent == if user.Some? then Some(RowFor(user.value, form, now)) else None
      ensures status == if user.None? then Failure("Gagal: " + LoginAgainMsg)
                        else if upsertError.Some? then Failure("Gagal: " + upsertError.value)
                        else Success(SavedMsg)
      ensures !saving
    {
      saving := true;
      status := Idle;
      sent := None;
      if user.None? {
        status := Failure("Gagal: " + LoginAgainMsg);
      } else {
        sent := Some(RowFor(user.value, form, now));
        if upsertError.Some? {
          status := Failure("Gagal: " + upsertError.value);
        } else {
          status := Success(SavedMsg);
        }
      }
      saving := false;
    }
  }
}
