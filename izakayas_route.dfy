/** The collection endpoint of the API. `GET` lists venues: it turns the search
    parameters into a conjunctive filter and returns the matching rows newest first.
    `POST` creates a venue from a submitted form: it writes each non-empty uploaded file to
    the uploads directory under a name with no whitespace (and, in the model, no `/`: see
    `StorageNameAsWrittenEscapesUploads`), pairs it with the caption sent at
    the same position, and creates the record together with its photo rows. The directory
    and the database are modelled as objects; the clock, the random generator and the
    outcome of each write and of the create call are parameters. */
module IzakayasRoute {
  import opened Common
  import opened Entries
  import opened Ordering
  import opened FormData
  import IzakayaCard
  import IzakayaForm
  import SearchFilter

  datatype ImageRecord = ImageRecord(id: int, url: string, caption: Option<string>, izakayaId: int, createdAt: int)

  /** A venue as the ORM returns it, its photos included. */
  datatype IzakayaRecord = IzakayaRecord(
    id: int, name: string, rating: int, genre: string, memo: Option<string>,
    mapUrl: Option<string>, status: string, createdAt: int, images: seq<ImageRecord>)

  /** A JSON response: a value with its status code, or an error message. */
  datatype Reply<T> = Json(status: int, value: T) | ErrorJson(status: int, error: string)

  // ----------------------------------------------------------------------------------
  // GET

  /** The ORM filter object; an absent field places no constraint. */
  datatype Where = Where(nameContains: Option<string>, genre: Option<string>, status: Option<string>)

  /** The ORM's reading of a filter: the fields are conjoined; `contains` is a
      case-sensitive substring test. */
  predicate MatchesWhere(row: IzakayaRecord, w: Where) {
    && (w.nameContains.None? || IsSubstring(w.nameContains.value, row.name))
    && (w.genre.None? || row.genre == w.genre.value)
    && (w.status.None? || row.status == w.status.value)
  }

  /** A choice parameter narrows the listing when it is present, non-empty and not `All`. */
  predicate Narrows(choice: Option<string>) {
    choice.Some? && SearchFilter.IsConstraint(choice.value)
  }

  /** The rows a listing request asks for. */
  predicate Requested(row: IzakayaRecord, q: Option<string>, genre: Option<string>, status: Option<string>) {
    && (q.None? || q.value == "" || IsSubstring(q.value, row.name))
    && (!Narrows(genre) || row.genre == genre.value)
    && (!Narrows(status) || row.status == status.value)
  }

  /** The filter built by assigning the fields of an empty `where` one condition at a time. */
  method BuildWhere(q: Option<string>, genre: Option<string>, status: Option<string>) returns (w: Where)
    ensures w.nameContains.Some? <==> q.Some? && q.value != ""
    ensures w.genre.Some? <==> Narrows(genre)
    ensures w.status.Some? <==> Narrows(status)
    ensures forall row :: MatchesWhere(row, w) <==> Requested(row, q, genre, status)
  {
    w := Where(None, None, None);
    if q.Some? && q.value != "" {
      w := w.(nameContains := Some(q.value));
    }
    if genre.Some? && genre.value != "" && genre.value != SearchFilter.AllChoice {
      w := w.(genre := Some(genre.value));
    }
    if status.Some? && status.value != "" && status.value != SearchFilter.AllChoice {
      w := w.(status := Some(status.value));
    }
  }

  function CreatedAt(row: IzakayaRecord): int {
    row.createdAt
  }

  /** The rows of the table the filter keeps, in table order. */
  function Filtered(table: seq<IzakayaRecord>, w: Where): seq<IzakayaRecord> {
    if table == [] then []
    else (if MatchesWhere(table[0], w) then [table[0]] else []) + Filtered(table[1..], w)
  }

  /** `findMany({ where, orderBy: { createdAt: 'desc' } })`. */
  function FindMany(table: seq<IzakayaRecord>, w: Where): seq<IzakayaRecord> {
    SortDesc(Filtered(table, w), CreatedAt)
  }

  /** The requested rows of the table, in table order: the reference the listing is held to. */
  function RequestedRows(table: seq<IzakayaRecord>, q: Option<string>, genre: Option<string>, status: Option<string>)
    : seq<IzakayaRecord>
  {
    if table == [] then []
    else (if Requested(table[0], q, genre, status) then [table[0]] else []) + RequestedRows(table[1..], q, genre, status)
  }

  lemma {:induction false} FilteredIsRequested(table: seq<IzakayaRecord>, w: Where, q: Option<string>, genre: Option<string>, status: Option<string>)
    requires forall row :: MatchesWhere(row, w) <==> Requested(row, q, genre, status)
    ensures Filtered(table, w) == RequestedRows(table, q, genre, status)
  {
    if table != [] {
      FilteredIsRequested(table[1..], w, q, genre, status);
    }
  }

  lemma {:induction false} RequestedRowsMembers(table: seq<IzakayaRecord>, q: Option<string>, genre: Option<string>, status: Option<string>)
    ensures forall row :: row in RequestedRows(table, q, genre, status) <==> row in table && Requested(row, q, genre, status)
  {
    if table != [] {
      RequestedRowsMembers(table[1..], q, genre, status);
      assert table == [table[0]] + table[1..];
    }
  }

  /** `GET /api/izakayas`: 500 when the store fails; otherwise every requested row of the
      table, each as often as in the table, newest first. */
  method HandleGet(params: seq<Entry<string>>, table: seq<IzakayaRecord>, fails: bool) returns (reply: Reply<seq<IzakayaRecord>>)
    ensures fails ==> reply == ErrorJson(500, "Failed to fetch izakayas")
    ensures !fails ==> reply.Json? && reply.status == 200
    ensures !fails ==> (multiset(reply.value) ==
      multiset(RequestedRows(table, Get(params, "q"), Get(params, "genre"), Get(params, "status"))))
    ensures !fails ==> forall row :: row in reply.value <==>
      row in table && Requested(row, Get(params, "q"), Get(params, "genre"), Get(params, "status"))
    ensures !fails ==> SortedDesc(reply.value, CreatedAt)
  {
    var q := Get(params, "q");
    var genre := Get(params, "genre");
    var status := Get(params, "status");
    var w := BuildWhere(q, genre, status);
    if fails {
      reply := ErrorJson(500, "Failed to fetch izakayas");
    } else {
      FilteredIsRequested(table, w, q, genre, status);
      RequestedRowsMembers(table, q, genre, status);
      var rows := FindMany(table, w);
      SortDescKeepsRows(Filtered(table, w), CreatedAt);
      reply := Json(200, rows);
    }
  }

  // ----------------------------------------------------------------------------------
  // POST: storage names

  newtype base36 = d: int | 0 <= d < 36

  function Base36Char(d: base36): char {
    if d < 10 then (('0' as int) + (d as int)) as char else (('a' as int) + (d as int) - 10) as char
  }

  /** `Math.random().toString(36)` for a draw whose fraction has the base-36 digits
      `digits`; a draw of exactly zero prints as `0`. */
  function RandomText(digits: seq<base36>): string {
    if digits == [] then "0" else "0." + seq(|digits|, k requires 0 <= k < |digits| => Base36Char(digits[k]))
  }

  /** `.substring(7)`: the text from position 7 on, empty when the text is shorter. */
  function RandomSuffix(digits: seq<base36>): string {
    var t := RandomText(digits);
    if |t| <= 7 then "" else t[7..]
  }

  /** The stored file name as the handler builds it: the clock reading, the random suffix
      and the original name with its whitespace replaced, joined by dashes. */
  function StorageNameAsWritten(stamp: nat, digits: seq<base36>, original: string): string {
    NatToDecimal(stamp) + ("-" + (RandomSuffix(digits) + ("-" + ReplaceWhitespace(original))))
  }

  /** The public url of a stored file. */
  function UploadUrl(filename: string): string {
    "/uploads/" + filename
  }

  lemma RandomSuffixIsClean(digits: seq<base36>)
    ensures HasNoWhitespace(RandomSuffix(digits)) && HasNoSeparator(RandomSuffix(digits))
  {
    var t := RandomText(digits);
    forall i | 0 <= i < |t| ensures !IsJsWhitespace(t[i]) && !IsSeparator(t[i]) {
      if digits != [] && i >= 2 {
        assert t[i] == Base36Char(digits[i - 2]);
      }
    }
    if |t| > 7 {
      forall i | 0 <= i < |t| - 7 ensures !IsJsWhitespace(t[7..][i]) && !IsSeparator(t[7..][i]) {
        assert t[7..][i] == t[7 + i];
      }
    }
  }

  /** The stored name and its url hold no whitespace, and the url is the name under `/uploads/`. */
  lemma StorageNameIsClean(stamp: nat, digits: seq<base36>, original: string)
    ensures HasNoWhitespace(StorageNameAsWritten(stamp, digits, original))
    ensures HasNoWhitespace(UploadUrl(StorageNameAsWritten(stamp, digits, original)))
    ensures UploadUrl(StorageNameAsWritten(stamp, digits, original))[..9] == "/uploads/"
  {
    var d, sfx, clean := NatToDecimal(stamp), RandomSuffix(digits), ReplaceWhitespace(original);
    RandomSuffixIsClean(digits);
    ReplaceWhitespaceSanitizes(original);
    assert HasNoWhitespace(d) && HasNoWhitespace("-");
    NoWhitespaceConcat("-", clean);
    NoWhitespaceConcat(sfx, "-" + clean);
    NoWhitespaceConcat("-", sfx + ("-" + clean));
    NoWhitespaceConcat(d, "-" + (sfx + ("-" + clean)));
    assert HasNoWhitespace("/uploads/") by {
      forall i | 0 <= i < |"/uploads/"| ensures !IsJsWhitespace("/uploads/"[i]) {
        assert '!' <= "/uploads/"[i] <= '~';
      }
    }
    NoWhitespaceConcat("/uploads/", StorageNameAsWritten(stamp, digits, original));
  }

  /** The stored name starts with the clock reading in decimal, which reads back as that
      reading, followed by a dash. */
  lemma StorageNameStartsWithStamp(stamp: nat, digits: seq<base36>, original: string)
    ensures var f, d := StorageNameAsWritten(stamp, digits, original), NatToDecimal(stamp);
      && |d| < |f| && f[..|d|] == d && f[|d|] == '-' && DecimalValue(f[..|d|]) == stamp
  {
    var d := NatToDecimal(stamp);
    var rest := "-" + (RandomSuffix(digits) + ("-" + ReplaceWhitespace(original)));
    DecimalRoundTrip(stamp);
    assert (d + rest)[..|d|] == d;
    assert (d + rest)[|d|] == rest[0];
  }

  /** The stored name ends with the original name with its whitespace replaced, and with the
      original name itself when that had none. */
  lemma StorageNameEndsWithOriginal(stamp: nat, digits: seq<base36>, original: string)
    ensures EndsWith(StorageNameAsWritten(stamp, digits, original), ReplaceWhitespace(original))
    ensures HasNoWhitespace(original) ==> EndsWith(StorageNameAsWritten(stamp, digits, original), original)
  {
    var d, sfx, clean := NatToDecimal(stamp), RandomSuffix(digits), ReplaceWhitespace(original);
    assert EndsWith(clean, clean);
    EndsWithConcat("-", clean, clean);
    EndsWithConcat(sfx, "-" + clean, clean);
    EndsWithConcat("-", sfx + ("-" + clean), clean);
    EndsWithConcat(d, "-" + (sfx + ("-" + clean)), clean);
    ReplaceWhitespaceSanitizes(original);
  }

  // ----------------------------------------------------------------------------------
  // POST: where a stored name puts the file

  /** The upload directory, relative to the working directory. */
  const UploadsDir: seq<string> := ["public", "uploads"]

  /** The segments of a POSIX path, split at every `/`. */
  function SplitPath(s: string): (segs: seq<string>)
    ensures |segs| >= 1
  {
    if s == [] then [""]
    else
      var rest := SplitPath(s[1..]);
      if s[0] == '/' then [""] + rest else [[s[0]] + rest[0]] + rest[1..]
  }

  /** `path.join`'s normalisation of segments appended to a directory: empty and `.` segments
      vanish, and `..` removes the directory before it. */
  function Resolve(dir: seq<string>, segs: seq<string>): seq<string>
    decreases |segs|
  {
    if segs == [] then dir
    else if segs[0] == "" || segs[0] == "." then Resolve(dir, segs[1..])
    else if segs[0] == ".." && dir != [] && dir[|dir| - 1] != ".." then Resolve(dir[..|dir| - 1], segs[1..])
    else Resolve(dir + [segs[0]], segs[1..])
  }

  /** `path.join(dir, name)`, as a list of segments. */
  function JoinPath(dir: seq<string>, name: string): seq<string> {
    Resolve(dir, SplitPath(name))
  }

  /** `path.join` puts a plain name (no `/`, not empty, not `.` or `..`) directly inside the
      directory. */
  lemma JoinPathPlainName(dir: seq<string>, name: string)
    requires HasNoSeparator(name) && name != "" && name != "." && name != ".."
    ensures JoinPath(dir, name) == dir + [name]
  {
    SplitPathWithoutSlash(name);
    var none: seq<string> := [];
    assert [name][1..] == none;
    assert Resolve(dir, [name]) == Resolve(dir + [name], none);
  }

  lemma {:induction false} SplitPathWithoutSlash(s: string)
    requires HasNoSeparator(s)
    ensures SplitPath(s) == [s]
  {
    if s != [] {
      SplitPathWithoutSlash(s[1..]);
      assert [s[0]] + s[1..] == s;
    }
  }

  /** The original name with every `/` replaced by a dash: the sanitising the
      file name needs for the write to land in the upload directory under the name its url
      shows. */
  function ReplaceSeparators(s: string): string {
    if s == [] then [] else [if IsSeparator(s[0]) then '-' else s[0]] + ReplaceSeparators(s[1..])
  }

  lemma {:induction false} ReplaceSeparatorsSanitizes(s: string)
    ensures HasNoSeparator(ReplaceSeparators(s))
    ensures HasNoSeparator(s) ==> ReplaceSeparators(s) == s
  {
    if s != [] {
      ReplaceSeparatorsSanitizes(s[1..]);
      NoSeparatorConcat([if IsSeparator(s[0]) then '-' else s[0]], ReplaceSeparators(s[1..]));
      assert HasNoSeparator(s) ==> HasNoSeparator(s[1..]) by {
        if HasNoSeparator(s) {
          forall i | 0 <= i < |s[1..]| ensures !IsSeparator(s[1..][i]) {
            assert s[1..][i] == s[i + 1];
          }
        }
      }
      assert HasNoSeparator(s) ==> [s[0]] + s[1..] == s;
    }
  }

  /** The stored file name the model uses: the one the handler builds, from the original name
      with every `/` replaced as well. */
  function StorageName(stamp: nat, digits: seq<base36>, original: string): string {
    StorageNameAsWritten(stamp, digits, ReplaceSeparators(original))
  }

  /** For a name without a `/`, which is every name a browser gives a picked file, the
      model's name is the handler's. */
  lemma StorageNameAgreesAsWritten(stamp: nat, digits: seq<base36>, original: string)
    requires HasNoSeparator(original)
    ensures StorageName(stamp, digits, original) == StorageNameAsWritten(stamp, digits, original)
  {
    ReplaceSeparatorsSanitizes(original);
  }

  /** A name cut at its first `/`: the part before it is one segment. */
  lemma {:induction false} SplitPathAtSlash(a: string, b: string)
    requires HasNoSeparator(a)
    ensures SplitPath(a + ("/" + b)) == [a] + SplitPath(b)
    decreases |a|
  {
    var s := a + ("/" + b);
    if a == [] {
      assert s[1..] == b;
    } else {
      assert s[1..] == a[1..] + ("/" + b);
      SplitPathAtSlash(a[1..], b);
      assert [a[0]] + a[1..] == a;
    }
  }

  /** Two `..` segments after a directory name climb out of `public/uploads`. */
  lemma ResolveBackOut(p: string, b: string)
    requires p != "" && p != "." && p != ".." && b != "" && b != "." && b != ".."
    ensures Resolve(UploadsDir, [p, "..", "..", b]) == ["public", b]
  {
    assert [p, "..", "..", b][1..] == ["..", "..", b];
    assert Resolve(UploadsDir, [p, "..", "..", b]) == Resolve(UploadsDir + [p], ["..", "..", b]);
    assert ["..", "..", b][1..] == ["..", b];
    assert (UploadsDir + [p])[..2] == UploadsDir;
    assert Resolve(UploadsDir + [p], ["..", "..", b]) == Resolve(UploadsDir, ["..", b]);
    assert |"uploads"| != |".."|;
    assert UploadsDir[..1] == ["public"];
    assert ["..", b][1..] == [b];
    assert Resolve(UploadsDir, ["..", b]) == Resolve(["public"], [b]);
    var none: seq<string> := [];
    assert [b][1..] == none;
    assert Resolve(["public"], [b]) == Resolve(["public", b], none);
  }

  /** The handler's name for `/../../b`, cut before its first `/`. */
  lemma EscapingNameShape(stamp: nat, digits: seq<base36>, b: string)
    requires HasNoWhitespace(b)
    ensures var p := NatToDecimal(stamp) + ("-" + (RandomSuffix(digits) + "-"));
      StorageNameAsWritten(stamp, digits, "/../../" + b) == p + ("/" + (".." + ("/" + (".." + ("/" + b)))))
  {
    var d, sfx := NatToDecimal(stamp), RandomSuffix(digits);
    var r := ".." + ("/" + (".." + ("/" + b)));
    assert "/../../" + b == "/" + r;
    assert HasNoWhitespace("/" + r) by {
      forall i | 0 <= i < |"/" + r| ensures !IsJsWhitespace(("/" + r)[i]) {
        if i >= 7 {
          assert ("/" + r)[i] == b[i - 7];
        }
      }
    }
    ReplaceWhitespaceSanitizes("/" + r);
  }

  /** The part before the first `/` is a directory name of at least three characters. */
  lemma EscapingPrefixIsName(stamp: nat, digits: seq<base36>)
    ensures var p := NatToDecimal(stamp) + ("-" + (RandomSuffix(digits) + "-"));
      HasNoSeparator(p) && |p| >= 3
  {
    var d, sfx := NatToDecimal(stamp), RandomSuffix(digits);
    RandomSuffixIsClean(digits);
    assert HasNoSeparator(d) by {
      forall i | 0 <= i < |d| ensures !IsSeparator(d[i]) {
        assert IsDigit(d[i]);
      }
    }
    NoSeparatorConcat(sfx, "-");
    NoSeparatorConcat("-", sfx + "-");
    NoSeparatorConcat(d, "-" + (sfx + "-"));
  }

  lemma EscapingNameSegments(p: string, b: string)
    requires HasNoSeparator(p) && HasNoSeparator(b)
    ensures SplitPath(p + ("/" + (".." + ("/" + (".." + ("/" + b)))))) == [p, "..", "..", b]
  {
    assert HasNoSeparator("..");
    SplitPathWithoutSlash(b);
    SplitPathAtSlash("..", b);
    SplitPathAtSlash("..", ".." + ("/" + b));
    SplitPathAtSlash(p, ".." + ("/" + (".." + ("/" + b))));
  }

  /** The handler's name keeps every `/` of the original name, so `path.join` writes the
      file outside the upload directory: whatever the clock and the draw, a submitted file
      named `/../../` followed by a plain name `b` is written to `public/b`. */
  lemma StorageNameAsWrittenEscapesUploads(stamp: nat, digits: seq<base36>, b: string)
    requires HasNoSeparator(b) && HasNoWhitespace(b) && b != "" && b != "." && b != ".."
    ensures JoinPath(UploadsDir, StorageNameAsWritten(stamp, digits, "/../../" + b)) == ["public", b]
  {
    var p := NatToDecimal(stamp) + ("-" + (RandomSuffix(digits) + "-"));
    EscapingNameShape(stamp, digits, b);
    EscapingPrefixIsName(stamp, digits);
    EscapingNameSegments(p, b);
    ResolveBackOut(p, b);
  }

  /** The model's name holds no whitespace and no separator, so `path.join` puts the file
      directly in the upload directory under that name, and its url is that name under
      `/uploads/`. */
  lemma StorageNameStaysInUploads(stamp: nat, digits: seq<base36>, original: string)
    ensures var f := StorageName(stamp, digits, original);
      && HasNoWhitespace(f) && HasNoSeparator(f)
      && JoinPath(UploadsDir, f) == UploadsDir + [f]
      && UploadUrl(f)[..9] == "/uploads/" && UploadUrl(f)[9..] == f
  {
    var safe := ReplaceSeparators(original);
    var d, sfx, clean := NatToDecimal(stamp), RandomSuffix(digits), ReplaceWhitespace(safe);
    var f := StorageName(stamp, digits, original);
    StorageNameIsClean(stamp, digits, safe);
    RandomSuffixIsClean(digits);
    ReplaceSeparatorsSanitizes(original);
    assert HasNoSeparator(clean) by {
      forall i | 0 <= i < |clean| ensures !IsSeparator(clean[i]) {
        assert clean[i] == (if IsJsWhitespace(safe[i]) then '-' else safe[i]);
      }
    }
    assert HasNoSeparator(d) by {
      forall i | 0 <= i < |d| ensures !IsSeparator(d[i]) {
        assert IsDigit(d[i]);
      }
    }
    assert HasNoSeparator("-");
    NoSeparatorConcat("-", clean);
    NoSeparatorConcat(sfx, "-" + clean);
    NoSeparatorConcat("-", sfx + ("-" + clean));
    NoSeparatorConcat(d, "-" + (sfx + ("-" + clean)));
    assert f[0] == d[0] && IsDigit(f[0]);
    assert f != "" && f != "." && f != ".." by {
      assert !IsDigit("."[0]) && !IsDigit(".."[0]);
    }
    JoinPathPlainName(UploadsDir, f);
  }

  // ----------------------------------------------------------------------------------
  // POST: reading the form

  /** `image && image.size > 0`: only a file with at least one byte is stored. */
  predicate IsUpload(v: FormValue) {
    v.Blob? && |v.file.bytes| > 0
  }

  /** `captions[i] || null`: the caption sent at position `i` when it is non-empty text. */
  function CaptionAt(captions: seq<FormValue>, i: nat): Option<string> {
    if i < |captions| && captions[i].Text? && captions[i].text != "" then Some(captions[i].text) else None
  }

  /** `formData.get('status') as string || 'VISITED'`. */
  function StatusOf(form: Form): (s: string)
    ensures s != ""
    ensures TextField(form, "status").Some? && TextField(form, "status").value != "" ==> s == TextField(form, "status").value
    ensures TextField(form, "status").None? || TextField(form, "status").value == "" ==> s == "VISITED"
  {
    var v := TextField(form, "status");
    if v.Some? && v.value != "" then v.value else "VISITED"
  }

  /** `Number(formData.get('rating'))`: a missing field reads as 0 (`Number(null)`), text as
      its integer value, anything else as NaN (None). */
  function RatingOf(form: Form): (r: Option<int>)
    ensures Get(form, "rating").None? ==> r == Some(0)
    ensures TextField(form, "rating") == Some("") ==> r == Some(0)
    ensures Get(form, "rating").Some? && !Get(form, "rating").value.Text? ==> r.None?
  {
    var v := Get(form, "rating");
    if v.None? then Some(0)
    else if v.value.Text? then JsNumber(v.value.text)
    else None
  }

  /** The rating the new-venue form submits is read back as the same integer. */
  lemma RatingReadsSubmitted(form: Form, rating: int)
    requires GetAll(form, "rating") == [Text(IntToString(rating))]
    ensures RatingOf(form) == Some(rating)
  {
    GetIsFirstOfAll(form, "rating");
    NumberOfToString(rating);
  }

  /** The fields of the record to create, as read from the form. */
  datatype NewIzakaya = NewIzakaya(
    name: Option<string>, rating: Option<int>, genre: Option<string>, memo: Option<string>,
    mapUrl: Option<string>, status: string)

  function ReadFields(form: Form): NewIzakaya {
    NewIzakaya(TextField(form, "name"), RatingOf(form), TextField(form, "genre"),
               TextField(form, "memo"), TextField(form, "mapUrl"), StatusOf(form))
  }

  // ----------------------------------------------------------------------------------
  // POST: the staging loop

  /** What the environment does at each loop turn: the clock reading, the random draw and
      whether the write of that turn's file succeeds. */
  datatype Env = Env(stamps: seq<nat>, draws: seq<seq<base36>>, writeOk: seq<bool>)

  predicate Covers(env: Env, n: nat) {
    |env.stamps| >= n && |env.draws| >= n && |env.writeOk| >= n
  }

  datatype StagedImage = StagedImage(url: string, caption: Option<string>)

  datatype Write = Write(filename: string, bytes: seq<byte>)

  /** The loop's progress after some turns: the positions of the files written so far, and
      whether a write has thrown. */
  datatype Progress = Progress(stored: seq<nat>, failed: bool)

  /** Every position names a submitted file. */
  predicate FilePositions(images: seq<FormValue>, idx: seq<nat>) {
    forall k :: 0 <= k < |idx| ==> idx[k] < |images| && images[idx[k]].Blob?
  }

  /** The progress after the first `n` turns of the loop over the submitted files. */
  function Run(images: seq<FormValue>, env: Env, n: nat): (p: Progress)
    requires n <= |images| && Covers(env, |images|)
    ensures FilePositions(images, p.stored)
  {
    if n == 0 then Progress([], false)
    else
      var p := Run(images, env, n - 1);
      if p.failed || !IsUpload(images[n - 1]) then p
      else if !env.writeOk[n - 1] then p.(failed := true)
      else Progress(p.stored + [n - 1], false)
  }

  /** The storage name of the file submitted at position `i`. */
  function NameAt(images: seq<FormValue>, env: Env, i: nat): string
    requires i < |images| && images[i].Blob? && Covers(env, |images|)
  {
    StorageName(env.stamps[i], env.draws[i], images[i].file.name)
  }

  /** The photo staged for the file at position `i`: the url of its stored name and the
      caption sent at the same position. */
  function Photo(images: seq<FormValue>, captions: seq<FormValue>, env: Env, i: nat): StagedImage
    requires i < |images| && images[i].Blob? && Covers(env, |images|)
  {
    StagedImage(UploadUrl(NameAt(images, env, i)), CaptionAt(captions, i))
  }

  function Photos(images: seq<FormValue>, captions: seq<FormValue>, env: Env, idx: seq<nat>): seq<StagedImage>
    requires FilePositions(images, idx) && Covers(env, |images|)
  {
    seq(|idx|, k requires 0 <= k < |idx| => Photo(images, captions, env, idx[k]))
  }

  function Writes(images: seq<FormValue>, env: Env, idx: seq<nat>): seq<Write>
    requires FilePositions(images, idx) && Covers(env, |images|)
  {
    seq(|idx|, k requires 0 <= k < |idx| => Write(NameAt(images, env, idx[k]), images[idx[k]].file.bytes))
  }

  lemma PhotosAndWritesSnoc(images: seq<FormValue>, captions: seq<FormValue>, env: Env, idx: seq<nat>, i: nat)
    requires FilePositions(images, idx) && Covers(env, |images|)
    requires i < |images| && images[i].Blob?
    ensures FilePositions(images, idx + [i])
    ensures Photos(images, captions, env, idx + [i]) == Photos(images, captions, env, idx) + [Photo(images, captions, env, i)]
    ensures Writes(images, env, idx + [i]) == Writes(images, env, idx) + [Write(NameAt(images, env, i), images[i].file.bytes)]
  {
    assert FilePositions(images, idx + [i]) by {
      forall k | 0 <= k < |idx + [i]| ensures (idx + [i])[k] < |images| && images[(idx + [i])[k]].Blob? {
        if k < |idx| { assert (idx + [i])[k] == idx[k]; }
      }
    }
  }

  /** The positions, among the first `n` submitted files, of those that are stored. */
  function UploadIndices(images: seq<FormValue>, n: nat): seq<nat>
    requires n <= |images|
  {
    if n == 0 then [] else UploadIndices(images, n - 1) + (if IsUpload(images[n - 1]) then [n - 1] else [])
  }

  /** The stored positions are exactly the non-empty files, each once, in submission order. */
  lemma {:induction false} UploadIndicesAreUploads(images: seq<FormValue>, n: nat)
    requires n <= |images|
    ensures forall k: nat :: k in UploadIndices(images, n) <==> k < n && IsUpload(images[k])
    ensures forall j :: 0 <= j < |UploadIndices(images, n)| ==> UploadIndices(images, n)[j] < n
    ensures forall j, m :: 0 <= j < m < |UploadIndices(images, n)| ==> UploadIndices(images, n)[j] < UploadIndices(images, n)[m]
  {
    if n > 0 {
      UploadIndicesAreUploads(images, n - 1);
    }
  }

  /** Some stored file among the first `n` has a failing write. */
  predicate FailsBy(images: seq<FormValue>, env: Env, n: nat)
    requires n <= |images| && Covers(env, |images|)
  {
    exists i :: 0 <= i < n && IsUpload(images[i]) && !env.writeOk[i]
  }

  /** The loop fails exactly when the write of some non-empty file fails, and until then it
      has written every non-empty file, in submission order. */
  lemma {:induction false} RunFollowsUploads(images: seq<FormValue>, env: Env, n: nat)
    requires n <= |images| && Covers(env, |images|)
    ensures Run(images, env, n).failed <==> FailsBy(images, env, n)
    ensures !Run(images, env, n).failed ==> Run(images, env, n).stored == UploadIndices(images, n)
  {
    if n > 0 {
      RunFollowsUploads(images, env, n - 1);
      if Run(images, env, n - 1).failed {
        var w :| 0 <= w < n - 1 && IsUpload(images[w]) && !env.writeOk[w];
        assert 0 <= w < n && IsUpload(images[w]) && !env.writeOk[w];
      } else if FailsBy(images, env, n) {
        var w :| 0 <= w < n && IsUpload(images[w]) && !env.writeOk[w];
        assert w == n - 1;
      }
    }
  }

  /** One turn of the loop, from a state where no write has thrown. */
  lemma RunStep(images: seq<FormValue>, env: Env, i: nat)
    requires i < |images| && Covers(env, |images|)
    requires !Run(images, env, i).failed
    ensures Run(images, env, i + 1) ==
      if !IsUpload(images[i]) then Run(images, env, i)
      else if !env.writeOk[i] then Progress(Run(images, env, i).stored, true)
      else Progress(Run(images, env, i).stored + [i], false)
  {
  }

  /** Once a write has thrown, later turns change nothing. */
  lemma {:induction false} RunStaysFailed(images: seq<FormValue>, env: Env, i: nat, n: nat)
    requires i <= n <= |images| && Covers(env, |images|)
    requires Run(images, env, i).failed
    ensures Run(images, env, n) == Run(images, env, i)
  {
    if n > i {
      RunStaysFailed(images, env, i, n - 1);
    }
  }

  /** When a write throws, the files already written are every non-empty file before the
      failing one: they stay in the directory with no record pointing at them. */
  lemma {:induction false} FailureLeavesEarlierFiles(images: seq<FormValue>, env: Env, n: nat)
    requires n <= |images| && Covers(env, |images|)
    requires Run(images, env, n).failed
    ensures exists f :: (0 <= f < n && IsUpload(images[f]) && !env.writeOk[f] && !FailsBy(images, env, f)
      && Run(images, env, n).stored == UploadIndices(images, f))
  {
    var p := Run(images, env, n - 1);
    if p.failed {
      FailureLeavesEarlierFiles(images, env, n - 1);
      var f :| 0 <= f < n - 1 && IsUpload(images[f]) && !env.writeOk[f] && !FailsBy(images, env, f)
        && Run(images, env, n - 1).stored == UploadIndices(images, f);
      assert 0 <= f < n;
    } else {
      RunFollowsUploads(images, env, n - 1);
      assert IsUpload(images[n - 1]) && !env.writeOk[n - 1];
      assert Run(images, env, n).stored == UploadIndices(images, n - 1);
    }
  }

  /** The first photo row of the created record is the first non-empty file submitted, so a
      card given the photos in the order they were stored shows that file; with no such file
      it shows none. */
  lemma HeroIsFirstUpload(images: seq<FormValue>, captions: seq<FormValue>, env: Env)
    requires Covers(env, |images|)
    requires !FailsBy(images, env, |images|)
    ensures var idx := UploadIndices(images, |images|);
      FilePositions(images, idx) &&
      var photos := Photos(images, captions, env, idx);
      var urls := seq(|photos|, k requires 0 <= k < |photos| => photos[k].url);
      && (idx == [] ==> IzakayaCard.HeroUrl(urls) == None)
      && (idx != [] ==> IzakayaCard.HeroUrl(urls) == Some(UploadUrl(NameAt(images, env, idx[0]))))
  {
    RunFollowsUploads(images, env, |images|);
  }

  /** What the new-venue form submits reaches the staging loop aligned: every staged photo is a
      non-empty file the form sent, with the caption the form kept at that file's position,
      even when empty files before it were skipped. */
  lemma SubmittedPhotosKeepCaptions(payload: Form, files: seq<File>, cs: seq<string>, env: Env)
    requires GetAll(payload, "images") == Blobs(files)
    requires GetAll(payload, "captions") == IzakayaForm.SubmittedCaptions(cs, |files|)
    requires Covers(env, |files|)
    ensures var images, captions := GetAll(payload, "images"), GetAll(payload, "captions");
      var idx := UploadIndices(images, |files|);
      FilePositions(images, idx) &&
      var photos := Photos(images, captions, env, idx);
      forall j :: 0 <= j < |idx| ==>
        && idx[j] < |files| && |files[idx[j]].bytes| > 0
        && photos[j].caption == (if IzakayaForm.CaptionOrEmpty(cs, idx[j]) != ""
                                 then Some(IzakayaForm.CaptionOrEmpty(cs, idx[j])) else None)
  {
    var images, captions := GetAll(payload, "images"), GetAll(payload, "captions");
    var idx := UploadIndices(images, |files|);
    UploadIndicesAreUploads(images, |files|);
    forall j | 0 <= j < |idx|
      ensures idx[j] < |files| && images[idx[j]] == Blob(files[idx[j]]) && |files[idx[j]].bytes| > 0
      ensures captions[idx[j]] == Text(IzakayaForm.CaptionOrEmpty(cs, idx[j]))
    {
      assert idx[j] in idx;
    }
  }

  // ----------------------------------------------------------------------------------
  // POST: the directory, the database and the handler

  /** The upload directory `public/uploads`: the files directly inside it, by file name. A
      write lands here under its name only when the name resolves inside the directory,
      which `StorageNameStaysInUploads` shows for every name the model builds. */
  class UploadDir {
    var files: map<string, seq<byte>>

    constructor ()
      ensures files == map[]
    {
      files := map[];
    }

    /** `writeFile`: stores the bytes under the name, or throws (`ok` false) and stores nothing. */
    method WriteFile(name: string, bytes: seq<byte>, ok: bool) returns (written: bool)
      modifies this
      ensures written == ok
      ensures files == if ok then old(files)[name := bytes] else old(files)
    {
      if ok {
        files := files[name := bytes];
      }
      written := ok;
    }
  }

  /** The directory after the given writes, in order (a later write to a name wins). */
  function ApplyWrites(files: map<string, seq<byte>>, writes: seq<Write>): map<string, seq<byte>> {
    if writes == [] then files
    else ApplyWrites(files, writes[..|writes| - 1])[writes[|writes| - 1].filename := writes[|writes| - 1].bytes]
  }

  lemma ApplyWritesSnoc(files: map<string, seq<byte>>, writes: seq<Write>, w: Write)
    ensures ApplyWrites(files, writes + [w]) == ApplyWrites(files, writes)[w.filename := w.bytes]
  {
    assert (writes + [w])[..|writes|] == writes;
  }

  /** The venue table with its id counters. */
  class Database {
    var izakayas: seq<IzakayaRecord>
    var nextId: int
    var nextImageId: int

    /** Every id handed out lies below the counters. */
    ghost predicate Valid()
      reads this
    {
      forall k :: 0 <= k < |izakayas| ==>
        izakayas[k].id < nextId &&
        forall m :: 0 <= m < |izakayas[k].images| ==> izakayas[k].images[m].id < nextImageId
    }

    constructor ()
      ensures Valid() && izakayas == [] && nextId == 1 && nextImageId == 1
    {
      izakayas := [];
      nextId := 1;
      nextImageId := 1;
    }

    /** `izakaya.create` with nested image creation: fails (`ok` false, or a required field
        missing or not a number) without any change, or adds one record whose photo rows are
        the staged photos in order, under fresh ids. */
    method Create(input: NewIzakaya, staged: seq<StagedImage>, createdAt: int, ok: bool)
      returns (created: Option<IzakayaRecord>)
      requires Valid()
      modifies this
      ensures Valid()
      ensures created.Some? <==> Accepted(input, ok)
      ensures created.Some? ==>
        && created.value == NewRecord(old(nextId), old(nextImageId), input, staged, createdAt)
        && izakayas == old(izakayas) + [created.value]
        && nextId == old(nextId) + 1 && nextImageId == old(nextImageId) + |staged|
        && (forall k :: 0 <= k < |old(izakayas)| ==> old(izakayas)[k].id != created.value.id)
        && forall k, m, j ::
             0 <= k < |old(izakayas)| && 0 <= m < |old(izakayas)[k].images| && 0 <= j < |created.value.images|
             ==> old(izakayas)[k].images[m].id != created.value.images[j].id
      ensures created.None? ==> izakayas == old(izakayas) && nextId == old(nextId) && nextImageId == old(nextImageId)
    {
      if Accepted(input, ok) {
        var rec := NewRecord(nextId, nextImageId, input, staged, createdAt);
        izakayas := izakayas + [rec];
        nextId := nextId + 1;
        nextImageId := nextImageId + |staged|;
        created := Some(rec);
      } else {
        created := None;
      }
    }
  }

  /** The database accepts the record when the required fields are there and the rating is a number. */
  predicate Accepted(input: NewIzakaya, ok: bool) {
    ok && input.name.Some? && input.genre.Some? && input.rating.Some?
  }

  /** The record the database creates: the given id, the fields as read, and one photo row per
      staged photo, in order, with consecutive ids. */
  function NewRecord(id: int, firstImageId: int, input: NewIzakaya, staged: seq<StagedImage>, createdAt: int): (r: IzakayaRecord)
    requires input.name.Some? && input.genre.Some? && input.rating.Some?
    ensures r.id == id && |r.images| == |staged|
    ensures forall k :: 0 <= k < |staged| ==>
      && r.images[k].izakayaId == r.id
      && r.images[k].url == staged[k].url && r.images[k].caption == staged[k].caption
      && firstImageId <= r.images[k].id < firstImageId + |staged|
    ensures forall k, m :: 0 <= k < m < |staged| ==> r.images[k].id < r.images[m].id
  {
    IzakayaRecord(id, input.name.value, input.rating.value, input.genre.value, input.memo, input.mapUrl,
                  input.status, createdAt,
                  seq(|staged|, k requires 0 <= k < |staged| =>
                    ImageRecord(firstImageId + k, staged[k].url, staged[k].caption, id, createdAt)))
  }

  /** One turn of the loop, from the state after `i` turns with no write thrown: a non-empty
      file is written under its storage name and its photo staged, a failing write throws,
      and any other entry is skipped. */
  method StageTurn(images: seq<FormValue>, captions: seq<FormValue>, env: Env, dir: UploadDir,
                   i: nat, staged: seq<StagedImage>, ghost files0: map<string, seq<byte>>)
    returns (staged': seq<StagedImage>, failed: bool)
    requires i < |images| && Covers(env, |images|) && !Run(images, env, i).failed
    requires staged == Photos(images, captions, env, Run(images, env, i).stored)
    requires dir.files == ApplyWrites(files0, Writes(images, env, Run(images, env, i).stored))
    modifies dir
    ensures staged' == Photos(images, captions, env, Run(images, env, i + 1).stored)
    ensures failed == Run(images, env, i + 1).failed
    ensures dir.files == ApplyWrites(files0, Writes(images, env, Run(images, env, i + 1).stored))
  {
    ghost var stored := Run(images, env, i).stored;
    RunStep(images, env, i);
    staged', failed := staged, false;
    var image := images[i];
    var caption := CaptionAt(captions, i);
    if IsUpload(image) {
      var filename := StorageName(env.stamps[i], env.draws[i], image.file.name);
      var ok := dir.WriteFile(filename, image.file.bytes, env.writeOk[i]);
      if ok {
        PhotosAndWritesSnoc(images, captions, env, stored, i);
        ApplyWritesSnoc(files0, Writes(images, env, stored), Write(filename, image.file.bytes));
        staged' := staged + [StagedImage(UploadUrl(filename), caption)];
      } else {
        failed := true;
      }
    }
  }

  /** The loop over the submitted files; it stops at the first write that throws. */
  method StageUploads(images: seq<FormValue>, captions: seq<FormValue>, env: Env, dir: UploadDir)
    returns (staged: seq<StagedImage>, failed: bool)
    requires Covers(env, |images|)
    modifies dir
    ensures staged == Photos(images, captions, env, Run(images, env, |images|).stored)
    ensures failed == Run(images, env, |images|).failed
    ensures dir.files == ApplyWrites(old(dir.files), Writes(images, env, Run(images, env, |images|).stored))
  {
    staged := [];
    failed := false;
    var i := 0;
    while i < |images| && !failed
      invariant 0 <= i <= |images|
      invariant staged == Photos(images, captions, env, Run(images, env, i).stored)
      invariant failed == Run(images, env, i).failed
      invariant dir.files == ApplyWrites(old(dir.files), Writes(images, env, Run(images, env, i).stored))
    {
      staged, failed := StageTurn(images, captions, env, dir, i, staged, old(dir.files));
      i := i + 1;
    }
    if failed {
      RunStaysFailed(images, env, i, |images|);
    }
  }

  /** `POST /api/izakayas`: 201 with the new record when every write and the create call
      succeed; otherwise 500 and no record, with the files written before the failure left
      in the directory. */
  method HandlePost(form: Form, env: Env, createdAt: int, createOk: bool, dir: UploadDir, db: Database)
    returns (reply: Reply<IzakayaRecord>)
    requires Covers(env, |GetAll(form, "images")|)
    requires db.Valid()
    modifies dir, db
    ensures db.Valid()
    ensures var images, captions := GetAll(form, "images"), GetAll(form, "captions");
      var p := Run(images, env, |images|);
      && dir.files == ApplyWrites(old(dir.files), Writes(images, env, p.stored))
      && (!p.failed && Accepted(ReadFields(form), createOk) ==>
            && reply == Json(201, NewRecord(old(db.nextId), old(db.nextImageId), ReadFields(form),
                                            Photos(images, captions, env, p.stored), createdAt))
            && db.izakayas == old(db.izakayas) + [reply.value]
            && db.nextId == old(db.nextId) + 1 && db.nextImageId == old(db.nextImageId) + |p.stored|)
      && (p.failed || !Accepted(ReadFields(form), createOk) ==>
            && reply == ErrorJson(500, "Failed to create izakaya")
            && db.izakayas == old(db.izakayas) && db.nextId == old(db.nextId) && db.nextImageId == old(db.nextImageId))
  {
    var input := ReadFields(form);
    var images := GetAll(form, "images");
    var captions := GetAll(form, "captions");
    var staged, failed := StageUploads(images, captions, env, dir);
    if failed {
      reply := ErrorJson(500, "Failed to create izakaya");
      return;
    }
    var created := db.Create(input, staged, createdAt, createOk);
    if created.Some? {
      reply := Json(201, created.value);
    } else {
      reply := ErrorJson(500, "Failed to create izakaya");
    }
  }
}
