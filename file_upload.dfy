/**
 * The file-upload component: the acceptance test a file must pass, the
 * storage path it is written to, and the list of uploads the component shows
 * with their progress. The storage upload and the database insert are not
 * modelled; their outcome is given to `Settle`.
 */
module FileUpload {
  import opened Wrappers
  import opened Strings
  import opened Seqs

  /** What the browser tells about a chosen file. */
  datatype FileInfo = FileInfo(name: string, size: nat, mimeType: string)

  /** The storage buckets the component may write to. */
  datatype Bucket = Avatars | Documents | Certificates | SessionMaterials

  /** The component's defaults: 10 MB, images, PDF and Word documents, one file at a time. */
  const DefaultMaxFileSize: nat := 10
  const DefaultAcceptedTypes: seq<string> := ["image/*", ".pdf", ".doc", ".docx"]
  const DefaultMultiple := false

  /** The text after the last `.` of `s` (all of `s` when it has none): `s.split('.').pop()`. */
  function LastSegment(s: string): (r: string)
    ensures '.' !in r
    ensures EndsWith(s, r)
    ensures |r| < |s| ==> s[|s| - |r| - 1] == '.'
  {
    if s == [] then []
    else if s[|s| - 1] == '.' then []
    else LastSegment(s[..|s| - 1]) + [s[|s| - 1]]
  }

  /** A name without a dot is its own last segment. */
  lemma LastSegmentNoDot(s: string)
    requires '.' !in s
    ensures LastSegment(s) == s
  {
    var r := LastSegment(s);
    assert |r| == |s|;
    assert s[|s| - |r|..] == s;
  }

  /** A name is the part before its last dot, the dot, and the last segment. */
  lemma LastSegmentSplits(s: string)
    requires '.' in s
    ensures var r := LastSegment(s); |r| < |s| && s == s[..|s| - |r| - 1] + "." + r
  {
    var r := LastSegment(s);
    assert s == s[..|s| - |r| - 1] + [s[|s| - |r| - 1]] + s[|s| - |r|..];
  }

  /**
   * `'.' + name.split('.').pop().toLowerCase()`: a dot followed by a dot-free
   * text; for a name with a dot it is how the lower-cased name ends.
   */
  function Extension(name: string): (r: string)
    ensures r != [] && r[0] == '.' && '.' !in r[1..]
  {
    var seg := LastSegment(name);
    LowerKeepsDotFree(seg);
    assert ("." + ToLower(seg))[1..] == ToLower(seg);
    "." + ToLower(seg)
  }

  /** Lower-casing neither adds nor removes dots. */
  lemma LowerKeepsDotFree(s: string)
    requires '.' !in s
    ensures '.' !in ToLower(s)
  {
    forall k | 0 <= k < |s| ensures ToLower(s)[k] != '.' {
      assert s[k] in s;
    }
  }

  /** For a name with a dot, the extension is how the lower-cased name ends. */
  lemma ExtensionEndsName(name: string)
    requires '.' in name
    ensures EndsWith(ToLower(name), Extension(name))
  {
    var seg := LastSegment(name);
    var pre := name[..|name| - |seg| - 1];
    assert name == pre + ("." + seg) by {
      LastSegmentSplits(name);
    }
    LowerEndsWithDotted(pre, seg);
  }

  /** Lower-casing `pre.seg` gives a text ending in `.` and the lower-cased `seg`. */
  lemma LowerEndsWithDotted(pre: string, seg: string)
    ensures EndsWith(ToLower(pre + ("." + seg)), "." + ToLower(seg))
  {
    var ext := "." + ToLower(seg);
    ToLowerAppend(pre, "." + seg);
    assert ("." + seg)[1..] == seg;
    assert (ToLower(pre) + ext)[|ToLower(pre)|..] == ext;
  }

  /** `s[i]` is the first occurrence of `c` in `s`. */
  predicate FirstOccurrence(s: string, c: char, i: int) {
    0 <= i < |s| && s[i] == c && c !in s[..i]
  }

  /** The position of the first `c` in `s`, or `|s|` when there is none. */
  function IndexOf(s: string, c: char): (i: nat)
    ensures i <= |s| && c !in s[..i]
    ensures i < |s| ==> s[i] == c
  {
    if s == [] then 0
    else if s[0] == c then 0
    else
      var i := IndexOf(s[1..], c);
      assert s[..i + 1] == [s[0]] + s[1..][..i];
      i + 1
  }

  /** The first occurrence is where `IndexOf` stops. */
  lemma IndexOfFirst(s: string, c: char, i: int)
    requires FirstOccurrence(s, c, i)
    ensures IndexOf(s, c) == i
  {
  }

  /** `s.replace(c, '')` with a one-character pattern: only the first occurrence is removed. */
  function RemoveFirst(s: string, c: char): string {
    var i := IndexOf(s, c);
    if i == |s| then s else s[..i] + s[i + 1..]
  }

  /** Without `c` nothing is removed; otherwise exactly the first `c` goes. */
  lemma RemoveFirstSpec(s: string, c: char)
    ensures c !in s ==> RemoveFirst(s, c) == s
    ensures c in s ==> exists i :: FirstOccurrence(s, c, i) && RemoveFirst(s, c) == s[..i] + s[i + 1..]
  {
    var i := IndexOf(s, c);
    if i == |s| {
      assert s[..i] == s;
    } else {
      assert FirstOccurrence(s, c, i);
    }
  }

  /** Only the first star of a pattern is removed: `"a**".replace('*', '')` is `"a*"`. */
  lemma RemoveFirstIsNotRemoveAll()
    ensures RemoveFirst("a**", '*') == "a*"
  {
    assert "a**"[0] == 'a' && "a**"[1..] == "**";
  }

  /**
   * One accepted entry against a file: a wildcard entry (one containing `*`)
   * matches a MIME type beginning with the entry minus its first `*`; any other
   * entry must equal the file's extension.
   */
  function TypeMatches(entry: string, file: FileInfo): (r: bool)
    ensures '*' in entry ==>
              (r <==> exists i :: FirstOccurrence(entry, '*', i) && StartsWith(file.mimeType, entry[..i] + entry[i + 1..]))
    ensures '*' !in entry ==> (r <==> entry == Extension(file.name))
  {
    RemoveFirstSpec(entry, '*');
    if '*' in entry then StartsWith(file.mimeType, RemoveFirst(entry, '*'))
    else entry == Extension(file.name)
  }

  /** `acceptedTypes.some(...)`, entry by entry. */
  predicate SomeTypeMatches(accepted: seq<string>, file: FileInfo) {
    accepted != [] && (TypeMatches(accepted[0], file) || SomeTypeMatches(accepted[1..], file))
  }

  /** `some` holds exactly when one of the entries matches. */
  lemma {:induction false} SomeTypeMatchesExists(accepted: seq<string>, file: FileInfo)
    ensures SomeTypeMatches(accepted, file) <==> exists k :: 0 <= k < |accepted| && TypeMatches(accepted[k], file)
  {
    if accepted != [] {
      SomeTypeMatchesExists(accepted[1..], file);
      if SomeTypeMatches(accepted[1..], file) && !TypeMatches(accepted[0], file) {
        var k :| 0 <= k < |accepted[1..]| && TypeMatches(accepted[1..][k], file);
        assert TypeMatches(accepted[k + 1], file);
      }
      if exists k :: 0 <= k < |accepted| && TypeMatches(accepted[k], file) {
        var k :| 0 <= k < |accepted| && TypeMatches(accepted[k], file);
        if k > 0 {
          assert TypeMatches(accepted[1..][k - 1], file);
        }
      }
    }
  }

  /** Why `validateFile` refuses a file; `Message` is the text it returns. */
  datatype Refusal = TooLarge(maxFileSize: nat) | UnsupportedType(accepted: seq<string>) {
    function Message(): string {
      match this
      case TooLarge(m) => "File size must be less than " + NatToString(m) + "MB"
      case UnsupportedType(a) => "File type not supported. Accepted types: " + Join(a, ", ")
    }
  }

  /**
   * `validateFile`: why a file is refused, or none. The size is checked before
   * the type, so only a file within the limit can be refused for its type.
   */
  function ValidateFile(file: FileInfo, maxFileSize: nat, accepted: seq<string>): (r: Option<Refusal>)
    ensures r.None? <==> file.size <= maxFileSize * 1048576 && SomeTypeMatches(accepted, file)
    ensures r.Some? ==> (r.value.TooLarge? <==> file.size > maxFileSize * 1048576)
    ensures r.Some? && r.value.TooLarge? ==> r.value.maxFileSize == maxFileSize
    ensures r.Some? && r.value.UnsupportedType? ==> r.value.accepted == accepted
  {
    if file.size > maxFileSize * 1048576 then Some(TooLarge(maxFileSize))
    else if !SomeTypeMatches(accepted, file) then Some(UnsupportedType(accepted))
    else None
  }

  /**
   * A file passes exactly when its size is within the limit and one of the
   * accepted entries matches it; the size is checked first, so an oversized
   * file gets the size message whatever its type, and otherwise a refused file
   * gets the type message listing the accepted entries.
   */
  lemma ValidateFileSpec(file: FileInfo, maxFileSize: nat, accepted: seq<string>)
    ensures var r := ValidateFile(file, maxFileSize, accepted);
            && (r.None? <==> file.size <= maxFileSize * 1048576 && exists k :: 0 <= k < |accepted| && TypeMatches(accepted[k], file))
            && (file.size > maxFileSize * 1048576 ==> r == Some(TooLarge(maxFileSize)))
            && (file.size <= maxFileSize * 1048576 && r.Some? ==> r == Some(UnsupportedType(accepted)))
  {
    SomeTypeMatchesExists(accepted, file);
  }

  /** With the defaults, a 10 MB photo passes: a size equal to the limit is accepted. */
  lemma DefaultsAcceptImageAtLimit()
    ensures ValidateFile(FileInfo("photo.jpg", 10485760, "image/jpeg"), DefaultMaxFileSize, DefaultAcceptedTypes).None?
  {
    var f := FileInfo("photo.jpg", 10485760, "image/jpeg");
    var entry := DefaultAcceptedTypes[0];
    assert entry == "image/*" && entry[6] == '*';
    assert entry[..6] == "image/" && '*' !in entry[..6];
    IndexOfFirst(entry, '*', 6);
    assert entry[..6] + entry[7..] == "image/";
    assert RemoveFirst(entry, '*') == "image/";
    assert f.mimeType[..6] == "image/";
    assert TypeMatches(entry, f);
    assert SomeTypeMatches(DefaultAcceptedTypes, f);
  }

  /** With the defaults, an upper-case extension is accepted: the extension is lower-cased first. */
  lemma DefaultsAcceptUpperCasePdf()
    ensures ValidateFile(FileInfo("Notes.PDF", 1, "application/pdf"), DefaultMaxFileSize, DefaultAcceptedTypes).None?
  {
    var f := FileInfo("Notes.PDF", 1, "application/pdf");
    LastSegmentSplits("Notes.PDF");
    assert LastSegment("Notes.PDF") == "PDF";
    assert ToLower("PDF") == "pdf";
    assert TypeMatches(DefaultAcceptedTypes[1], f);
  }

  /** One byte over the limit is refused with the size message, whatever the type. */
  lemma DefaultsRefuseOversize(name: string, mimeType: string)
    ensures ValidateFile(FileInfo(name, 10485760 + 1, mimeType), DefaultMaxFileSize, DefaultAcceptedTypes) ==
            Some(TooLarge(DefaultMaxFileSize))
  {
  }

  /** The size message names the limit in megabytes: "File size must be less than 10MB" for the default. */
  lemma DefaultSizeMessage()
    ensures TooLarge(DefaultMaxFileSize).Message() == "File size must be less than 10MB"
  {
    assert NatToString(10) == "10" by {
      assert NatToString(1) == "1";
    }
  }

  /**
   * The storage path of an upload: the avatars bucket keeps the bare name under
   * the user's folder; session materials with a session id go under the
   * session's folder; everything else goes under the user's folder. Every path
   * but an avatar's puts the upload time and a dash before the name.
   */
  function StoragePath(bucket: Bucket, userId: string, sessionId: Option<string>, now: nat, name: string): (r: string)
    ensures StartsWith(r, PathFolder(bucket, userId, sessionId) + "/")
    ensures EndsWith(r, name)
    ensures bucket == Avatars <==> |r| == |PathFolder(bucket, userId, sessionId)| + 1 + |name|
  {
    var stamp := NatToString(now) + "-";
    var path :=
      if bucket == Avatars then userId + "/" + name
      else if bucket == SessionMaterials && Truthy(sessionId) then sessionId.value + "/" + stamp + name
      else userId + "/" + stamp + name;
    assert path[..|PathFolder(bucket, userId, sessionId) + "/"|] == PathFolder(bucket, userId, sessionId) + "/";
    path
  }

  /** The folder an upload is written under. */
  function PathFolder(bucket: Bucket, userId: string, sessionId: Option<string>): string {
    if bucket == SessionMaterials && Truthy(sessionId) then sessionId.value else userId
  }

  /** Two strings of digits followed by a dash and the same tail are the same digits. */
  lemma StampsAgree(a: string, b: string, tail: string)
    requires forall k :: 0 <= k < |a| ==> '0' <= a[k] <= '9'
    requires forall k :: 0 <= k < |b| ==> '0' <= b[k] <= '9'
    requires a + "-" + tail == b + "-" + tail
    ensures a == b
  {
    var s := a + "-" + tail;
    assert s[|a|] == '-';
    assert s[|b|] == '-';
    assert forall k :: 0 <= k < |a| ==> s[k] == a[k];
    assert forall k :: 0 <= k < |b| ==> s[k] == b[k];
    assert |a| == |b|;
    assert a == s[..|a|];
    assert b == (b + "-" + tail)[..|b|];
  }

  /** Outside the avatars bucket the path is the folder, a slash, the time, a dash and the name. */
  lemma StoragePathStamped(bucket: Bucket, userId: string, sessionId: Option<string>, now: nat, name: string)
    requires bucket != Avatars
    ensures StoragePath(bucket, userId, sessionId, now, name) == PathFolder(bucket, userId, sessionId) + "/" + (NatToString(now) + "-" + name)
  {
  }

  /**
   * Outside the avatars bucket, two uploads of the same file name at different
   * times go to different paths (so they do not overwrite each other).
   */
  lemma {:induction false} StoragePathsDistinct(bucket: Bucket, userId: string, sessionId: Option<string>, t1: nat, t2: nat, name: string)
    requires bucket != Avatars && t1 != t2
    ensures StoragePath(bucket, userId, sessionId, t1, name) != StoragePath(bucket, userId, sessionId, t2, name)
  {
    var folder := PathFolder(bucket, userId, sessionId) + "/";
    var p1 := StoragePath(bucket, userId, sessionId, t1, name);
    var p2 := StoragePath(bucket, userId, sessionId, t2, name);
    if p1 == p2 {
      var s1 := NatToString(t1);
      var s2 := NatToString(t2);
      StoragePathStamped(bucket, userId, sessionId, t1, name);
      StoragePathStamped(bucket, userId, sessionId, t2, name);
      assert p1[|folder|..] == s1 + "-" + name;
      assert p2[|folder|..] == s2 + "-" + name;
      StampsAgree(s1, s2, name);
      NatToStringRoundTrip(t1);
      NatToStringRoundTrip(t2);
      assert false;
    }
  }

  /** The state of one upload in the list. */
  datatype UploadStatus = Uploading | Completed | Error

  /** One entry of the list: the file, its progress in percent, its state, the public URL once done, the error once failed. */
  datatype UploadEntry = UploadEntry(file: FileInfo, progress: nat, status: UploadStatus, url: Option<string>, error: Option<string>)

  /** How the upload of one file ended: with its public URL, or with an error message. */
  datatype Outcome = Uploaded(publicUrl: string) | UploadFailed(message: string)

  /** The entry appended when an upload starts. */
  function Started(file: FileInfo): UploadEntry {
    UploadEntry(file, 0, Uploading, None, None)
  }

  /** The entries appended for a sequence of files, in order. */
  function StartedAll(files: seq<FileInfo>): (r: seq<UploadEntry>)
    ensures |r| == |files|
    ensures forall k :: 0 <= k < |files| ==> r[k] == Started(files[k])
  {
    if files == [] then [] else [Started(files[0])] + StartedAll(files[1..])
  }

  /** `StartedAll` of a longer selection extends that of a shorter one. */
  lemma StartedAllAppend(files: seq<FileInfo>, f: FileInfo)
    ensures StartedAll(files + [f]) == StartedAll(files) + [Started(f)]
  {
    assert |StartedAll(files + [f])| == |files| + 1;
  }

  /**
   * The `map` that settles an upload: the entry at `index` becomes completed
   * at 100% with its URL, or failed with its message; every other entry is
   * unchanged, and nothing changes when no entry has that index.
   */
  function SettleAt(entries: seq<UploadEntry>, index: int, outcome: Outcome): (r: seq<UploadEntry>)
    ensures |r| == |entries|
    ensures forall k :: 0 <= k < |entries| && k != index ==> r[k] == entries[k]
    ensures 0 <= index < |entries| && outcome.Uploaded? ==>
              r[index] == entries[index].(status := Completed, progress := 100, url := Some(outcome.publicUrl))
    ensures 0 <= index < |entries| && outcome.UploadFailed? ==>
              r[index] == entries[index].(status := Error, error := Some(outcome.message))
  {
    seq(|entries|, k requires 0 <= k < |entries| =>
      if k != index then entries[k]
      else if outcome.Uploaded? then entries[k].(status := Completed, progress := 100, url := Some(outcome.publicUrl))
      else entries[k].(status := Error, error := Some(outcome.message)))
  }

  /** A file `uploadFile` goes on with: there is a user and the file validates. */
  predicate Admitted(file: FileInfo, user: Option<string>, maxFileSize: nat, accepted: seq<string>) {
    user.Some? && ValidateFile(file, maxFileSize, accepted).None?
  }

  function AdmittedBy(user: Option<string>, maxFileSize: nat, accepted: seq<string>): FileInfo -> bool {
    (f: FileInfo) => Admitted(f, user, maxFileSize, accepted)
  }

  /**
   * The files of a selection that get an entry, in selection order: the
   * `forEach(uploadFile)` loop seen from its last step.
   */
  function AdmittedFiles(files: seq<FileInfo>, user: Option<string>, maxFileSize: nat, accepted: seq<string>): (r: seq<FileInfo>)
    ensures |r| <= |files|
  {
    if files == [] then []
    else
      var last := files[|files| - 1];
      AdmittedFiles(files[..|files| - 1], user, maxFileSize, accepted) + (if Admitted(last, user, maxFileSize, accepted) then [last] else [])
  }

  /** Running `uploadFile` on one more file admits it or not, after the earlier ones. */
  lemma AdmittedFilesAppend(files: seq<FileInfo>, f: FileInfo, user: Option<string>, maxFileSize: nat, accepted: seq<string>)
    ensures AdmittedFiles(files + [f], user, maxFileSize, accepted) ==
            AdmittedFiles(files, user, maxFileSize, accepted) + (if Admitted(f, user, maxFileSize, accepted) then [f] else [])
  {
    assert (files + [f])[..|files|] == files;
  }

  /** The admitted files are the selection filtered by `Admitted`: exactly the admissible files, in order. */
  lemma {:induction false} AdmittedFilesFilter(files: seq<FileInfo>, user: Option<string>, maxFileSize: nat, accepted: seq<string>)
    ensures AdmittedFiles(files, user, maxFileSize, accepted) == Filter(files, AdmittedBy(user, maxFileSize, accepted))
  {
    if files != [] {
      var init := files[..|files| - 1];
      var last := files[|files| - 1];
      AdmittedFilesFilter(init, user, maxFileSize, accepted);
      assert files == init + [last];
      FilterSnoc(init, last, AdmittedBy(user, maxFileSize, accepted));
    }
  }

  /** One more file of the selection: its entry is appended exactly when it is admitted. */
  lemma AdmitStep(fs: seq<FileInfo>, i: nat, user: Option<string>, maxFileSize: nat, accepted: seq<string>)
    requires i < |fs|
    ensures StartedAll(AdmittedFiles(fs[..i + 1], user, maxFileSize, accepted)) ==
            StartedAll(AdmittedFiles(fs[..i], user, maxFileSize, accepted)) +
            (if Admitted(fs[i], user, maxFileSize, accepted) then [Started(fs[i])] else [])
  {
    assert fs[..i + 1] == fs[..i] + [fs[i]];
    AdmittedFilesAppend(fs[..i], fs[i], user, maxFileSize, accepted);
    if Admitted(fs[i], user, maxFileSize, accepted) {
      StartedAllAppend(AdmittedFiles(fs[..i], user, maxFileSize, accepted), fs[i]);
    }
  }

  /** Without a user no file is admitted. */
  lemma {:induction false} AdmittedFilesNoUser(files: seq<FileInfo>, maxFileSize: nat, accepted: seq<string>)
    ensures AdmittedFiles(files, None, maxFileSize, accepted) == []
  {
    if files != [] {
      AdmittedFilesNoUser(files[..|files| - 1], maxFileSize, accepted);
    }
  }

  /**
   * As written, `uploadIndex = uploads.length` reads the list of the render in
   * which the selection arrived, so every file of one selection captures the
   * same index: the length before the first of them was appended.
   */
  function CapturedIndicesAsWritten(renderLength: nat, count: nat): (r: seq<nat>)
    ensures |r| == count && forall k :: 0 <= k < count ==> r[k] == renderLength
  {
    seq(count, k => renderLength)
  }

  /** The index of each admitted file's own entry: the length before the selection plus its rank. */
  function CapturedIndices(renderLength: nat, count: nat): (r: seq<nat>)
    ensures |r| == count && forall k :: 0 <= k < count ==> r[k] == renderLength + k
  {
    seq(count, k => renderLength + k)
  }

  /** One more admitted file gets the next index. */
  lemma CapturedIndicesAppend(renderLength: nat, count: nat)
    ensures CapturedIndices(renderLength, count + 1) == CapturedIndices(renderLength, count) + [renderLength + count]
  {
  }

  /**
   * As written, when two files are selected together the second upload's
   * completion is written onto the FIRST file's entry, and the second entry
   * stays "uploading" for good.
   */
  lemma StaleIndexMisroutesCompletion(a: FileInfo, b: FileInfo, url: string)
    ensures var entries := StartedAll([a, b]);
            var index := CapturedIndicesAsWritten(0, 2)[1];
            var after := SettleAt(entries, index, Uploaded(url));
            after[0].status == Completed && after[0].file == a && after[1].status == Uploading
  {
  }

  /**
   * With the corrected indices each file's outcome lands on its own entry, and
   * no two files of a selection share an entry.
   */
  lemma CapturedIndicesOwnEntries(before: seq<UploadEntry>, files: seq<FileInfo>)
    ensures var idx := CapturedIndices(|before|, |files|);
            var entries := before + StartedAll(files);
            && (forall k :: 0 <= k < |files| ==> idx[k] < |entries| && entries[idx[k]] == Started(files[k]))
            && (forall j, k :: 0 <= j < k < |files| ==> idx[j] != idx[k])
  {
  }

  /** The list of uploads the component shows. */
  class UploadList {
    var uploads: seq<UploadEntry>

    constructor ()
      ensures uploads == []
    {
      uploads := [];
    }

    /**
     * The part of `uploadFile` before the upload is awaited: with no user, or a
     * file that fails validation, nothing is appended; otherwise a new
     * "uploading" entry at 0% goes at the end and its index is returned.
     */
    method UploadFile(file: FileInfo, user: Option<string>, maxFileSize: nat, accepted: seq<string>) returns (admitted: bool, index: nat)
      modifies this
      ensures admitted == Admitted(file, user, maxFileSize, accepted)
      ensures uploads == old(uploads) + (if admitted then [Started(file)] else [])
      ensures index == |old(uploads)|
    {
      index := |uploads|;
      if user.None? {
        return false, index;
      }
      var validationError := ValidateFile(file, maxFileSize, accepted);
      if validationError.Some? {
        return false, index;
      }
      uploads := uploads + [Started(file)];
      return true, index;
    }

    /** The completion or the catch block of `uploadFile`: only the entry at `index` is rewritten. */
    method Settle(index: int, outcome: Outcome)
      modifies this
      ensures uploads == SettleAt(old(uploads), index, outcome)
    {
      uploads := SettleAt(uploads, index, outcome);
    }

    /** `removeUpload(index)`: only the entry at `index` goes. */
    method Remove(index: int)
      modifies this
      ensures uploads == RemoveIndex(old(uploads), index)
      ensures 0 <= index < |old(uploads)| ==> uploads == old(uploads)[..index] + old(uploads)[index + 1..]
      ensures !(0 <= index < |old(uploads)|) ==> uploads == old(uploads)
    {
      uploads := RemoveIndex(uploads, index);
    }

    /**
     * `handleFileSelect`: an absent selection, or several files in single-file
     * mode, changes nothing; otherwise `uploadFile` runs on each file in turn,
     * and each file that has a user and validates gets an entry, in order.
     * `CapturedIndicesOwnEntries` gives the index each admitted file's outcome
     * belongs at.
     */
    method HandleFileSelect(files: Option<seq<FileInfo>>, user: Option<string>, maxFileSize: nat, accepted: seq<string>, multiple: bool)
      modifies this
      ensures files.None? || (!multiple && |files.value| > 1) ==> uploads == old(uploads)
      ensures files.Some? && (multiple || |files.value| <= 1) ==>
                uploads == old(uploads) + StartedAll(AdmittedFiles(files.value, user, maxFileSize, accepted))
      ensures user.None? ==> uploads == old(uploads)
    {
      if files.None? {
        return;
      }
      var fs := files.value;
      if !multiple && |fs| > 1 {
        return;
      }
      var i := 0;
      while i < |fs|
        invariant 0 <= i <= |fs|
        invariant uploads == old(uploads) + StartedAll(AdmittedFiles(fs[..i], user, maxFileSize, accepted))
      {
        var admitted, _ := UploadFile(fs[i], user, maxFileSize, accepted);
        AdmitStep(fs, i, user, maxFileSize, accepted);
        i := i + 1;
      }
      assert fs[..i] == fs;
      if user.None? {
        AdmittedFilesNoUser(fs, maxFileSize, accepted);
      }
    }
  }
}
