/** The create/edit form for a venue. Its state tracks photos to add (three parallel lists:
    preview URLs, captions and files), the photos the venue already has, edited captions
    of those, and the ids of the ones the user removed. On submit the state becomes one
    multipart payload. */
module IzakayaForm {
  import opened Common
  import opened Entries
  import opened FormData
  import StarRating

  datatype ExistingImage = ExistingImage(id: int, url: string, caption: Option<string>)

  datatype InitialData = InitialData(
    id: Option<int>, name: string, rating: int, genre: string,
    memo: Option<string>, mapUrl: Option<string>, status: string,
    images: Option<seq<ExistingImage>>)

  /** A chosen or dropped file together with the URL `URL.createObjectURL` gave it. */
  datatype PickedFile = PickedFile(file: File, objectUrl: string)

  /** One photo waiting to be uploaded, read across the three parallel lists. */
  datatype PendingImage = PendingImage(preview: string, caption: string, file: File)

  /** `initialData?.rating || 3`: a missing or zero rating starts at 3. */
  function InitialRating(d: Option<InitialData>): int {
    if d.Some? && d.value.rating != 0 then d.value.rating else 3
  }

  /** `initialData?.status || 'VISITED'`. */
  function InitialStatus(d: Option<InitialData>): string {
    if d.Some? && d.value.status != "" then d.value.status else "VISITED"
  }

  /** `initialData?.images || []`. */
  function InitialImages(d: Option<InitialData>): seq<ExistingImage> {
    if d.Some? && d.value.images.Some? then d.value.images.value else []
  }

  /** `caption ?? ''`. */
  function CaptionText(c: Option<string>): string {
    if c.Some? then c.value else ""
  }

  function Ids(imgs: seq<ExistingImage>): (r: set<int>)
    ensures forall k :: 0 <= k < |imgs| ==> imgs[k].id in r
  {
    if imgs == [] then {} else {imgs[0].id} + Ids(imgs[1..])
  }

  lemma {:induction false} IdsConcat(a: seq<ExistingImage>, b: seq<ExistingImage>)
    ensures Ids(a + b) == Ids(a) + Ids(b)
  {
    if a == [] {
      assert a + b == b;
    } else {
      assert (a + b)[0] == a[0] && (a + b)[1..] == a[1..] + b;
      IdsConcat(a[1..], b);
    }
  }

  /** `Object.fromEntries(images.map(img => [img.id, img.caption ?? '']))`; a later image
      with the same id overwrites an earlier one. */
  function CaptionTable(imgs: seq<ExistingImage>): map<int, string> {
    if imgs == [] then map[]
    else CaptionTable(imgs[..|imgs| - 1])[imgs[|imgs| - 1].id := CaptionText(imgs[|imgs| - 1].caption)]
  }

  /** The table has a key for every image id and no other, and maps each id to the caption
      of the last image carrying it (to that image's caption when ids are distinct). */
  lemma {:induction false} CaptionTableOfImages(imgs: seq<ExistingImage>)
    ensures CaptionTable(imgs).Keys == Ids(imgs)
    ensures forall k :: 0 <= k < |imgs| && (forall m :: k < m < |imgs| ==> imgs[m].id != imgs[k].id) ==>
      imgs[k].id in CaptionTable(imgs) && CaptionTable(imgs)[imgs[k].id] == CaptionText(imgs[k].caption)
  {
    if imgs != [] {
      var init, last := imgs[..|imgs| - 1], imgs[|imgs| - 1];
      assert imgs == init + [last];
      CaptionTableOfImages(init);
      IdsConcat(init, [last]);
      assert Ids([last]) == {last.id};
      forall k | 0 <= k < |imgs| - 1 && (forall m :: k < m < |imgs| ==> imgs[m].id != imgs[k].id)
        ensures imgs[k].id in CaptionTable(imgs) && CaptionTable(imgs)[imgs[k].id] == CaptionText(imgs[k].caption)
      {
        assert init[k] == imgs[k];
        forall m | k < m < |init| ensures init[m].id != init[k].id {
          assert init[m] == imgs[m];
        }
      }
    }
  }

  /** `images.filter(img => img.id !== id)`. */
  function WithoutId(imgs: seq<ExistingImage>, id: int): (r: seq<ExistingImage>)
    ensures forall img :: img in r <==> img in imgs && img.id != id
    ensures |r| <= |imgs|
  {
    if imgs == [] then []
    else (if imgs[0].id == id then [] else [imgs[0]]) + WithoutId(imgs[1..], id)
  }

  /** Over a concatenation the filter works on each part in place, so the surviving
      images keep their relative order. */
  lemma {:induction false} WithoutIdConcat(a: seq<ExistingImage>, b: seq<ExistingImage>, id: int)
    ensures WithoutId(a + b, id) == WithoutId(a, id) + WithoutId(b, id)
  {
    if a == [] {
      assert a + b == b;
    } else {
      assert (a + b)[0] == a[0] && (a + b)[1..] == a[1..] + b;
      WithoutIdConcat(a[1..], b, id);
    }
  }

  /** The filter removes exactly the id it is given from the set of shown ids, and is the
      identity when that id is not shown. */
  lemma {:induction false} WithoutIdIds(a: seq<ExistingImage>, id: int)
    ensures Ids(WithoutId(a, id)) == Ids(a) - {id}
    ensures id !in Ids(a) ==> WithoutId(a, id) == a
  {
    if a != [] {
      WithoutIdIds(a[1..], id);
      var head := if a[0].id == id then [] else [a[0]];
      IdsConcat(head, WithoutId(a[1..], id));
    }
  }

  /** `list.filter((_, i) => i !== index)`. */
  function WithoutIndex<T>(s: seq<T>, index: int): (r: seq<T>)
    ensures 0 <= index < |s| ==> |r| == |s| - 1
    ensures !(0 <= index < |s|) ==> r == s
    ensures 0 <= index < |s| ==> forall k :: 0 <= k < |r| ==> r[k] == s[if k < index then k else k + 1]
  {
    if 0 <= index < |s| then s[..index] + s[index + 1..] else s
  }

  /** The three parallel lists read as one list of pending photos. */
  function Zip(previews: seq<string>, captions: seq<string>, files: seq<File>): (r: seq<PendingImage>)
    requires |previews| == |captions| == |files|
    ensures |r| == |files|
  {
    seq(|files|, k requires 0 <= k < |files| => PendingImage(previews[k], captions[k], files[k]))
  }

  /** Dropping one index from each of the three lists drops the same pending photo: the
      lists stay aligned. */
  lemma WithoutIndexKeepsAlignment(previews: seq<string>, captions: seq<string>, files: seq<File>, index: int)
    requires |previews| == |captions| == |files|
    ensures Zip(WithoutIndex(previews, index), WithoutIndex(captions, index), WithoutIndex(files, index))
         == WithoutIndex(Zip(previews, captions, files), index)
  {
  }

  /** The `captions` value sent for the photo at `index`: `captions[index] || ''`. */
  function CaptionOrEmpty(captions: seq<string>, index: nat): string {
    if index < |captions| then captions[index] else ""
  }

  /** The caption values sent for the first `n` photos, in order. */
  function SubmittedCaptions(captions: seq<string>, n: nat): seq<FormValue>
  {
    seq(n, k requires 0 <= k => Text(CaptionOrEmpty(captions, k)))
  }

  /** Keys the submit handler writes; every other key of the form passes through. */
  const SubmitKeys: set<string> :=
    {"rating", "status", "image", "images-input", "deletedImageIds", "existingCaptions", "images", "captions"}

  /** What each key holds after the steps of `handleSubmit` before the file loop. */
  function HeaderValues(fields: Form, rating: int, status: string, deleted: seq<int>,
                        existing: map<int, string>, key: string): seq<FormValue>
  {
    if key == "rating" then [Text(IntToString(rating))]
    else if key == "status" then [Text(status)]
    else if key == "image" || key == "images-input" then []
    else if key == "deletedImageIds" then GetAll(fields, key) + [IdListJson(deleted)]
    else if key == "existingCaptions" then GetAll(fields, key) + [CaptionsJson(existing)]
    else GetAll(fields, key)
  }

  lemma SetRatingAndStatus(fields: Form, r: FormValue, st: FormValue, key: string)
    ensures GetAll(Set(Set(fields, "rating", r), "status", st), key) ==
      if key == "rating" then [r] else if key == "status" then [st] else GetAll(fields, key)
  {
    GetAllSet(fields, "rating", r, key);
    GetAllSet(Set(fields, "rating", r), "status", st, key);
  }

  lemma DeleteFileInputs(fd: Form, key: string)
    ensures GetAll(Delete(Delete(fd, "image"), "images-input"), key) ==
      if key == "image" || key == "images-input" then [] else GetAll(fd, key)
  {
    GetAllDelete(fd, "image", key);
    GetAllDelete(Delete(fd, "image"), "images-input", key);
  }

  lemma AppendEdits(fd: Form, d: FormValue, e: FormValue, key: string)
    ensures GetAll(Append(Append(fd, "deletedImageIds", d), "existingCaptions", e), key) ==
      GetAll(fd, key) + (if key == "deletedImageIds" then [d] else []) + (if key == "existingCaptions" then [e] else [])
  {
    GetAllAppend(fd, "deletedImageIds", d, key);
    GetAllAppend(Append(fd, "deletedImageIds", d), "existingCaptions", e, key);
  }

  lemma SubmitHeaderValues(fields: Form, rating: int, status: string, deleted: seq<int>, existing: map<int, string>)
    ensures forall key ::
      GetAll(Append(Append(Delete(Delete(Set(Set(fields, "rating", Text(IntToString(rating))), "status", Text(status)),
        "image"), "images-input"), "deletedImageIds", IdListJson(deleted)), "existingCaptions", CaptionsJson(existing)),
      key) == HeaderValues(fields, rating, status, deleted, existing, key)
  {
    var f2 := Set(Set(fields, "rating", Text(IntToString(rating))), "status", Text(status));
    var f4 := Delete(Delete(f2, "image"), "images-input");
    var f6 := Append(Append(f4, "deletedImageIds", IdListJson(deleted)), "existingCaptions", CaptionsJson(existing));
    forall key ensures GetAll(f6, key) == HeaderValues(fields, rating, status, deleted, existing, key) {
      SetRatingAndStatus(fields, Text(IntToString(rating)), Text(status), key);
      DeleteFileInputs(f2, key);
      AppendEdits(f4, IdListJson(deleted), CaptionsJson(existing), key);
    }
  }

  /** The header values of the keys the submit handler sets or deletes. */
  lemma HeaderValuesOfReplacedKeys(fields: Form, rating: int, status: string, deleted: seq<int>, existing: map<int, string>)
    ensures HeaderValues(fields, rating, status, deleted, existing, "rating") == [Text(IntToString(rating))]
    ensures HeaderValues(fields, rating, status, deleted, existing, "status") == [Text(status)]
    ensures HeaderValues(fields, rating, status, deleted, existing, "image") == []
    ensures HeaderValues(fields, rating, status, deleted, existing, "images-input") == []
  {
    assert "rating"[0] != "status"[0];
  }

  /** The header values of the keys the submit handler appends to. */
  lemma HeaderValuesOfAppendedKeys(fields: Form, rating: int, status: string, deleted: seq<int>, existing: map<int, string>)
    ensures HeaderValues(fields, rating, status, deleted, existing, "deletedImageIds") == GetAll(fields, "deletedImageIds") + [IdListJson(deleted)]
    ensures HeaderValues(fields, rating, status, deleted, existing, "existingCaptions") == GetAll(fields, "existingCaptions") + [CaptionsJson(existing)]
  {
  }

  /** The header leaves the photo keys and every key the handler does not name as they were. */
  lemma HeaderValuesOfOtherKeys(fields: Form, rating: int, status: string, deleted: seq<int>, existing: map<int, string>)
    ensures HeaderValues(fields, rating, status, deleted, existing, "images") == GetAll(fields, "images")
    ensures HeaderValues(fields, rating, status, deleted, existing, "captions") == GetAll(fields, "captions")
    ensures forall key :: key !in SubmitKeys ==> HeaderValues(fields, rating, status, deleted, existing, key) == GetAll(fields, key)
  {
    assert "images" != "rating" && "images" != "status" && "images" != "deletedImageIds" && "images" != "existingCaptions" by {
      assert "images"[0] != "rating"[0] && "images"[0] != "status"[0];
      assert "images"[0] != "deletedImageIds"[0] && "images"[0] != "existingCaptions"[0];
    }
    assert "images" != "image" && "images" != "images-input" by {
      assert |"images"| != |"image"| && |"images"| != |"images-input"|;
    }
    assert "captions" != "rating" && "captions" != "status" && "captions" != "image" && "captions" != "images-input" by {
      assert "captions"[0] != "rating"[0] && "captions"[0] != "status"[0];
      assert "captions"[0] != "image"[0] && "captions"[0] != "images-input"[0];
    }
    assert "captions" != "deletedImageIds" && "captions" != "existingCaptions" by {
      assert "captions"[0] != "deletedImageIds"[0] && "captions"[0] != "existingCaptions"[0];
    }
  }

  lemma FormKeysDistinct()
    ensures "rating" != "images" && "status" != "images" && "rating" != "captions" && "status" != "captions"
  {
    assert "rating"[0] != "images"[0] && "status"[0] != "images"[0];
  }

  /** One turn of the submit loop adds one file under `images` and one caption under
      `captions` and nothing else. */
  lemma PhotoValues(fd: Form, f: File, caption: string)
    ensures forall key ::
      (GetAll(Append(Append(fd, "images", Blob(f)), "captions", Text(caption)), key)
       == GetAll(fd, key) + (if key == "images" then [Blob(f)] else [])
                          + (if key == "captions" then [Text(caption)] else []))
  {
    forall key ensures GetAll(Append(Append(fd, "images", Blob(f)), "captions", Text(caption)), key)
      == GetAll(fd, key) + (if key == "images" then [Blob(f)] else [])
                         + (if key == "captions" then [Text(caption)] else [])
    {
      GetAllAppend(fd, "images", Blob(f), key);
      GetAllAppend(Append(fd, "images", Blob(f)), "captions", Text(caption), key);
    }
  }

  predicate NoDuplicates(s: seq<int>) {
    forall i, j :: 0 <= i < j < |s| ==> s[i] != s[j]
  }

  class FormState {
    var rating: int
    var status: string
    var previews: seq<string>
    var captions: seq<string>
    var existingImages: seq<ExistingImage>
    var existingCaptions: map<int, string>
    var droppedFiles: seq<File>
    var deletedImageIds: seq<int>

    /** The three lists describing new photos have one entry per photo. */
    ghost predicate Valid()
      reads this
    {
      |previews| == |captions| == |droppedFiles|
    }

    ghost function Pending(): seq<PendingImage>
      reads this
      requires Valid()
    {
      Zip(previews, captions, droppedFiles)
    }

    /** Every removed id is listed once and no longer shown. */
    ghost predicate DeletionsTracked()
      reads this
    {
      NoDuplicates(deletedImageIds) &&
      forall k :: 0 <= k < |deletedImageIds| ==> deletedImageIds[k] !in Ids(existingImages)
    }

    constructor (initialData: Option<InitialData>)
      ensures Valid() && Pending() == [] && DeletionsTracked()
      ensures rating == InitialRating(initialData) && status == InitialStatus(initialData)
      ensures initialData.None? ==> rating == 3 && status == "VISITED"
      ensures existingImages == InitialImages(initialData)
      ensures existingCaptions == CaptionTable(InitialImages(initialData))
      ensures deletedImageIds == []
    {
      rating := InitialRating(initialData);
      status := InitialStatus(initialData);
      previews, captions, droppedFiles := [], [], [];
      existingImages := InitialImages(initialData);
      existingCaptions := CaptionTable(InitialImages(initialData));
      deletedImageIds := [];
    }

    /** `handleImageChange`: appends each file, its preview URL and an empty caption. An
        absent or empty file list changes nothing. */
    method HandleImageChange(files: Option<seq<PickedFile>>)
      requires Valid()
      modifies this
      ensures Valid()
      ensures files.None? || files.value == [] ==>
        previews == old(previews) && captions == old(captions) && droppedFiles == old(droppedFiles)
      ensures files.Some? && files.value != [] ==>
        && previews == old(previews) + seq(|files.value|, k requires 0 <= k < |files.value| => files.value[k].objectUrl)
        && captions == old(captions) + seq(|files.value|, k => "")
        && droppedFiles == old(droppedFiles) + seq(|files.value|, k requires 0 <= k < |files.value| => files.value[k].file)
      ensures Pending()[..old(|droppedFiles|)] == old(Pending())
      ensures rating == old(rating) && status == old(status) && existingImages == old(existingImages)
      ensures existingCaptions == old(existingCaptions) && deletedImageIds == old(deletedImageIds)
    {
      if files.Some? && |files.value| > 0 {
        var fileArray := files.value;
        var newPreviews: seq<string> := [];
        var newCaptions: seq<string> := [];
        var newFiles: seq<File> := [];
        var k := 0;
        while k < |fileArray|
          invariant 0 <= k <= |fileArray|
          invariant newPreviews == seq(k, j requires 0 <= j < k => fileArray[j].objectUrl)
          invariant newCaptions == seq(k, j => "")
          invariant newFiles == seq(k, j requires 0 <= j < k => fileArray[j].file)
        {
          newPreviews := newPreviews + [fileArray[k].objectUrl];
          newCaptions := newCaptions + [""];
          newFiles := newFiles + [fileArray[k].file];
          k := k + 1;
        }
        previews := previews + newPreviews;
        captions := captions + newCaptions;
        droppedFiles := droppedFiles + newFiles;
      }
    }

    /** The drop zone's handler runs the same steps as `handleImageChange`. */
    method HandleDrop(files: Option<seq<PickedFile>>)
      requires Valid()
      modifies this
      ensures Valid()
      ensures files.None? || files.value == [] ==>
        previews == old(previews) && captions == old(captions) && droppedFiles == old(droppedFiles)
      ensures files.Some? && files.value != [] ==>
        && previews == old(previews) + seq(|files.value|, k requires 0 <= k < |files.value| => files.value[k].objectUrl)
        && captions == old(captions) + seq(|files.value|, k => "")
        && droppedFiles == old(droppedFiles) + seq(|files.value|, k requires 0 <= k < |files.value| => files.value[k].file)
      ensures rating == old(rating) && status == old(status) && existingImages == old(existingImages)
      ensures existingCaptions == old(existingCaptions) && deletedImageIds == old(deletedImageIds)
    {
      HandleImageChange(files);
    }

    /** `handleCaptionChange`: sets the caption of one new photo. */
    method HandleCaptionChange(index: int, value: string)
      requires Valid() && 0 <= index < |captions|
      modifies this
      ensures Valid()
      ensures captions == old(captions)[index := value]
      ensures Pending() == old(Pending())[index := old(Pending())[index].(caption := value)]
      ensures previews == old(previews) && droppedFiles == old(droppedFiles)
      ensures rating == old(rating) && status == old(status) && existingImages == old(existingImages)
      ensures existingCaptions == old(existingCaptions) && deletedImageIds == old(deletedImageIds)
    {
      var newCaptions := captions;
      newCaptions := newCaptions[index := value];
      captions := newCaptions;
    }

    /** `handleExistingCaptionChange`: sets the edited caption of one existing photo. */
    method HandleExistingCaptionChange(id: int, value: string)
      modifies this
      ensures existingCaptions == old(existingCaptions)[id := value]
      ensures forall other :: other in old(existingCaptions) && other != id ==>
        other in existingCaptions && existingCaptions[other] == old(existingCaptions)[other]
      ensures previews == old(previews) && captions == old(captions) && droppedFiles == old(droppedFiles)
      ensures rating == old(rating) && status == old(status) && existingImages == old(existingImages)
      ensures deletedImageIds == old(deletedImageIds)
    {
      existingCaptions := existingCaptions[id := value];
    }

    /** `handleRemovePreview`: drops one new photo from all three lists. */
    method HandleRemovePreview(index: int)
      requires Valid()
      modifies this
      ensures Valid()
      ensures previews == WithoutIndex(old(previews), index)
      ensures captions == WithoutIndex(old(captions), index)
      ensures droppedFiles == WithoutIndex(old(droppedFiles), index)
      ensures Pending() == WithoutIndex(old(Pending()), index)
      ensures rating == old(rating) && status == old(status) && existingImages == old(existingImages)
      ensures existingCaptions == old(existingCaptions) && deletedImageIds == old(deletedImageIds)
    {
      WithoutIndexKeepsAlignment(previews, captions, droppedFiles, index);
      previews := WithoutIndex(previews, index);
      captions := WithoutIndex(captions, index);
      droppedFiles := WithoutIndex(droppedFiles, index);
    }

    /** `handleRemoveExisting`: records the id as deleted and stops showing every photo
        with that id; the edited captions are left as they are. */
    method HandleRemoveExisting(id: int)
      modifies this
      ensures deletedImageIds == old(deletedImageIds) + [id]
      ensures existingImages == WithoutId(old(existingImages), id)
      ensures Ids(existingImages) == Ids(old(existingImages)) - {id}
      ensures old(id in Ids(existingImages)) && old(DeletionsTracked()) ==> DeletionsTracked()
      ensures existingCaptions == old(existingCaptions)
      ensures previews == old(previews) && captions == old(captions) && droppedFiles == old(droppedFiles)
      ensures rating == old(rating) && status == old(status)
    {
      WithoutIdIds(existingImages, id);
      ghost var before := deletedImageIds;
      ghost var shown := Ids(existingImages);
      deletedImageIds := deletedImageIds + [id];
      existingImages := WithoutId(existingImages, id);
      if id in shown && NoDuplicates(before) && forall k :: 0 <= k < |before| ==> before[k] !in shown {
        assert forall k :: 0 <= k < |before| ==> before[k] != id;
        assert NoDuplicates(deletedImageIds) by {
          forall i, j | 0 <= i < j < |deletedImageIds| ensures deletedImageIds[i] != deletedImageIds[j] {
            if j == |before| { assert deletedImageIds[i] == before[i]; }
            else { assert deletedImageIds[i] == before[i] && deletedImageIds[j] == before[j]; }
          }
        }
      }
    }

    /** The status toggle buttons. */
    method SetStatus(newStatus: string)
      requires newStatus == "VISITED" || newStatus == "WANT_TO_GO"
      modifies this
      ensures status == newStatus
      ensures rating == old(rating) && previews == old(previews) && captions == old(captions)
      ensures droppedFiles == old(droppedFiles) && existingImages == old(existingImages)
      ensures existingCaptions == old(existingCaptions) && deletedImageIds == old(deletedImageIds)
    {
      status := newStatus;
    }

    /** A click on star `index` of the editable five-star widget sets the rating. */
    method ClickStar(index: nat)
      requires index < StarRating.StarCount(StarRating.DefaultMaxRating)
      modifies this
      ensures rating == index + 1 && 1 <= rating <= StarRating.DefaultMaxRating
      ensures status == old(status) && previews == old(previews) && captions == old(captions)
      ensures droppedFiles == old(droppedFiles) && existingImages == old(existingImages)
      ensures existingCaptions == old(existingCaptions) && deletedImageIds == old(deletedImageIds)
    {
      var reported := StarRating.Click(index, StarRating.DefaultMaxRating, false, true);
      rating := reported.value;
    }

    /** `handleSubmit`: the browser's form fields with rating and status set, the two file
        inputs removed, the deleted ids and edited captions appended once each, and then
        one `images` and one `captions` entry per new photo, in the same order. */
    method HandleSubmit(fields: Form) returns (payload: Form)
      requires Valid()
      ensures GetAll(payload, "rating") == [Text(IntToString(rating))]
      ensures GetAll(payload, "status") == [Text(status)]
      ensures GetAll(payload, "image") == [] && GetAll(payload, "images-input") == []
      ensures GetAll(payload, "deletedImageIds") == GetAll(fields, "deletedImageIds") + [IdListJson(deletedImageIds)]
      ensures GetAll(payload, "existingCaptions") == GetAll(fields, "existingCaptions") + [CaptionsJson(existingCaptions)]
      ensures GetAll(payload, "images") == GetAll(fields, "images") + Blobs(droppedFiles)
      ensures GetAll(payload, "captions") == GetAll(fields, "captions") + SubmittedCaptions(captions, |droppedFiles|)
      ensures forall key :: key !in SubmitKeys ==> GetAll(payload, key) == GetAll(fields, key)
    {
      var fd := Set(fields, "rating", Text(IntToString(rating)));
      fd := Set(fd, "status", Text(status));
      fd := Delete(fd, "image");
      fd := Delete(fd, "images-input");
      fd := Append(fd, "deletedImageIds", IdListJson(deletedImageIds));
      fd := Append(fd, "existingCaptions", CaptionsJson(existingCaptions));
      SubmitHeaderValues(fields, rating, status, deletedImageIds, existingCaptions);
      HeaderValuesOfReplacedKeys(fields, rating, status, deletedImageIds, existingCaptions);
      HeaderValuesOfAppendedKeys(fields, rating, status, deletedImageIds, existingCaptions);
      HeaderValuesOfOtherKeys(fields, rating, status, deletedImageIds, existingCaptions);
      FormKeysDistinct();
      ghost var header := fd;
      if |droppedFiles| > 0 {
        fd := AppendNewPhotos(fd);
      }
      payload := fd;
    }

    /** The `droppedFiles.forEach` loop of `handleSubmit`: file `k` goes under `images` and
        caption `k` (or `''`) under `captions`, one pair per turn. */
    method AppendNewPhotos(fd: Form) returns (r: Form)
      requires Valid()
      ensures GetAll(r, "images") == GetAll(fd, "images") + Blobs(droppedFiles)
      ensures GetAll(r, "captions") == GetAll(fd, "captions") + SubmittedCaptions(captions, |droppedFiles|)
      ensures forall key :: key != "images" && key != "captions" ==> GetAll(r, key) == GetAll(fd, key)
    {
      r := fd;
      var index := 0;
      while index < |droppedFiles|
        invariant 0 <= index <= |droppedFiles|
        invariant GetAll(r, "images") == GetAll(fd, "images") + Blobs(droppedFiles[..index])
        invariant GetAll(r, "captions") == GetAll(fd, "captions") + SubmittedCaptions(captions, index)
        invariant forall key :: key != "images" && key != "captions" ==> GetAll(r, key) == GetAll(fd, key)
      {
        PhotoValues(r, droppedFiles[index], CaptionOrEmpty(captions, index));
        r := Append(r, "images", Blob(droppedFiles[index]));
        r := Append(r, "captions", Text(CaptionOrEmpty(captions, index)));
        assert droppedFiles[..index + 1] == droppedFiles[..index] + [droppedFiles[index]];
        index := index + 1;
      }
      assert droppedFiles[..index] == droppedFiles;
    }

  }
}
