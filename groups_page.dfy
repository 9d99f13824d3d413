/** The group administration page: a form whose music-file list grows by
    the download URLs of uploaded files and shrinks by removal, which
    creates a group with what it holds, and the labels a file and a group
    card are shown with. */
module GroupsPage {
  import opened Types
  import opened Text
  import FirebaseApi
  import UriComponent

  const MUSIC_FOLDER := "music/"
  const LOCAL_FILES := "Lokala filer"
  const UPLOAD_FAILED := "❌ Uppladdning misslyckades"
  const GROUP_CREATED := "✅ Grupp skapad!"
  const CREATE_FAILED := "❌ Kunde inte skapa grupp"

  /** The storage path of an uploaded file: the music folder, the upload
      time in milliseconds, an underscore and the file's own name. */
  function StoragePath(time: nat, fileName: string): (p: string)
    ensures |MUSIC_FOLDER| + |fileName| < |p|
    ensures p[..|MUSIC_FOLDER|] == MUSIC_FOLDER && p[|p| - |fileName|..] == fileName
  {
    MUSIC_FOLDER + (DecimalString(time) + "_" + fileName)
  }

  /** The alert after a complete upload: `✅ ${files.length} filer uppladdade!`. */
  function UploadedMessage(count: nat): string
  {
    "✅ " + DecimalString(count) + " filer uppladdade!"
  }

  /** A string of digits, an underscore and a name splits back at its first
      underscore into the digits and the name. */
  lemma SplitAtUnderscore(d1: string, n1: string, d2: string, n2: string)
    requires forall i :: 0 <= i < |d1| ==> '0' <= d1[i] <= '9'
    requires forall i :: 0 <= i < |d2| ==> '0' <= d2[i] <= '9'
    requires d1 + "_" + n1 == d2 + "_" + n2
    ensures d1 == d2 && n1 == n2
  {
    var q := d1 + "_" + n1;
    assert q[|d1|] == '_';
    assert q[|d2|] == '_';
    assert d1 == q[..|d1|] == d2;
    assert n1 == q[|d1| + 1..] == n2;
  }

  /** Two uploads get the same path only for the same time and the same
      name: the path can be read back into both. */
  lemma StoragePathInjective(t1: nat, n1: string, t2: nat, n2: string)
    requires StoragePath(t1, n1) == StoragePath(t2, n2)
    ensures t1 == t2 && n1 == n2
  {
    var d1, d2 := DecimalString(t1), DecimalString(t2);
    var q1, q2 := d1 + "_" + n1, d2 + "_" + n2;
    assert MUSIC_FOLDER + q1 == MUSIC_FOLDER + q2;
    assert q1 == (MUSIC_FOLDER + q1)[|MUSIC_FOLDER|..];
    assert q2 == (MUSIC_FOLDER + q2)[|MUSIC_FOLDER|..];
    SplitAtUnderscore(d1, n1, d2, n2);
    DecimalRoundTrip(t1);
    DecimalRoundTrip(t2);
  }

  /** The storage paths of the files, in selection order. */
  function Paths(times: seq<nat>, files: seq<string>): (r: seq<string>)
    requires |times| == |files|
    ensures |r| == |files|
    ensures forall i :: 0 <= i < |files| ==> r[i] == StoragePath(times[i], files[i])
  {
    seq(|files|, i requires 0 <= i < |files| => StoragePath(times[i], files[i]))
  }

  /** How the upload of one file ends: its bytes are stored and
      `getDownloadURL` gives `url`; the upload task reports an error, which
      rejects the awaited promise; or the bytes are stored but
      `getDownloadURL` rejects inside the completion callback, whose promise
      nobody awaits, so the awaited promise never settles. */
  datatype Upload = Stored(url: string) | UploadRejected | UrlRejected

  /** Every upload of the batch succeeded. */
  predicate AllUploaded(results: seq<Upload>) {
    forall i :: 0 <= i < |results| ==> results[i].Stored?
  }

  /** The download URLs of a completely uploaded batch. */
  function UploadedUrls(results: seq<Upload>): (r: seq<string>)
    requires AllUploaded(results)
    ensures |r| == |results|
    ensures forall i :: 0 <= i < |results| ==> Stored(r[i]) == results[i]
  {
    seq(|results|, i requires 0 <= i < |results| => results[i].url)
  }

  /** The position of the upload that fails first. */
  function FirstFailure(results: seq<Upload>): (k: nat)
    requires !AllUploaded(results)
    ensures k < |results| && !results[k].Stored?
    ensures forall j :: 0 <= j < k ==> results[j].Stored?
  {
    if !results[0].Stored? then 0 else 1 + FirstFailure(results[1..])
  }

  /** Leaving out every entry equal to `url`, keeping the others in order
      (`musicFiles.filter(f => f !== url)`). */
  function Without(files: seq<string>, url: string): (r: seq<string>)
    ensures |r| <= |files|
    ensures forall x :: x in r <==> x in files && x != url
  {
    if files == [] then []
    else (if files[0] == url then [] else [files[0]]) + Without(files[1..], url)
  }

  /** Removal keeps the order: removing from two lists one after the other
      is removing from each. */
  lemma {:induction false} WithoutAppend(a: seq<string>, b: seq<string>, url: string)
    ensures Without(a + b, url) == Without(a, url) + Without(b, url)
  {
    if a == [] {
      assert a + b == b;
    } else {
      assert (a + b)[1..] == a[1..] + b;
      WithoutAppend(a[1..], b, url);
    }
  }

  /** Removal keeps every other entry as often as it occurs. */
  lemma {:induction false} WithoutCounts(files: seq<string>, url: string, x: string)
    ensures multiset(Without(files, url))[x] == if x == url then 0 else multiset(files)[x]
  {
    if files != [] {
      var rest := Without(files[1..], url);
      WithoutCounts(files[1..], url, x);
      assert files == [files[0]] + files[1..];
      assert multiset(files) == multiset([files[0]]) + multiset(files[1..]);
      if files[0] == url {
        assert Without(files, url) == rest;
      } else {
        assert Without(files, url) == [files[0]] + rest;
        assert multiset([files[0]] + rest) == multiset([files[0]]) + multiset(rest);
      }
    }
  }

  /** Removing a URL that is not listed changes nothing. */
  lemma {:induction false} WithoutAbsent(files: seq<string>, url: string)
    requires url !in files
    ensures Without(files, url) == files
  {
    if files != [] {
      WithoutAbsent(files[1..], url);
    }
  }

  /** Removing a freshly added URL undoes the addition. */
  lemma RemoveUndoesAdd(files: seq<string>, url: string)
    requires url !in files
    ensures Without(files + [url], url) == files
  {
    WithoutAppend(files, [url], url);
    WithoutAbsent(files, url);
    assert Without([url], url) == [];
  }

  class GroupForm {
    const store: FirebaseApi.Store
    var name: string
    var streamUrl: string
    var musicFiles: seq<string>
    var showForm: bool
    /** Whether an upload batch is in progress. */
    var uploading: bool
    /** The last alert shown. */
    var alert: Option<string>

    constructor (store: FirebaseApi.Store)
      ensures this.store == store
      ensures name == "" && streamUrl == "" && musicFiles == [] && !showForm && !uploading && alert.None?
    {
      this.store := store;
      name, streamUrl, musicFiles := "", "", [];
      showForm, uploading, alert := false, false, None;
    }

    /** `handleFileUpload`: the selected files are uploaded one after the
        other, file `i` at time `times[i]`, its outcome being `results[i]`.
        Only a batch that uploads completely reaches the form, appended in
        order. The first failure ends the batch and leaves the list as it
        was: a rejected upload is alerted and clears `uploading`, while a
        rejected download URL leaves the handler waiting for good, with no
        alert and `uploading` still set. The result is the storage paths
        written to, in order. */
    method HandleFileUpload(files: seq<string>, times: seq<nat>, results: seq<Upload>)
      returns (written: seq<string>)
      requires |times| == |files| && |results| == |files|
      modifies this
      ensures files == [] ==>
                written == [] && musicFiles == old(musicFiles) && alert == old(alert) && uploading == old(uploading)
      ensures files != [] && AllUploaded(results) ==>
                written == Paths(times, files)
                && musicFiles == old(musicFiles) + UploadedUrls(results)
                && alert == Some(UploadedMessage(|files|)) && !uploading
      ensures !AllUploaded(results) ==>
                written == Paths(times, files)[..FirstFailure(results) + 1]
                && musicFiles == old(musicFiles)
      ensures !AllUploaded(results) && results[FirstFailure(results)].UploadRejected? ==>
                alert == Some(UPLOAD_FAILED) && !uploading
      ensures !AllUploaded(results) && results[FirstFailure(results)].UrlRejected? ==>
                alert == old(alert) && uploading
      ensures name == old(name) && streamUrl == old(streamUrl) && showForm == old(showForm)
    {
      written := [];
      if |files| == 0 {
        return;
      }
      uploading := true;
      var urls: seq<string> := [];
      var i := 0;
      while i < |files|
        invariant 0 <= i <= |files|
        invariant AllUploaded(results[..i])
        invariant written == Paths(times, files)[..i]
        invariant urls == UploadedUrls(results[..i])
        invariant musicFiles == old(musicFiles) && name == old(name) && streamUrl == old(streamUrl) && showForm == old(showForm)
        invariant alert == old(alert) && uploading
      {
        written := written + [StoragePath(times[i], files[i])];
        match results[i]
        case UploadRejected =>
          assert !AllUploaded(results) && FirstFailure(results) == i;
          alert := Some(UPLOAD_FAILED);
          uploading := false;
          return;
        case UrlRejected =>
          assert !AllUploaded(results) && FirstFailure(results) == i;
          return;
        case Stored(url) =>
          urls := urls + [url];
          i := i + 1;
      }
      assert results[..i] == results;
      musicFiles := musicFiles + urls;
      alert := Some(UploadedMessage(|files|));
      uploading := false;
    }

    /** `removeFile`. */
    method RemoveFile(url: string)
      modifies this
      ensures musicFiles == Without(old(musicFiles), url)
      ensures name == old(name) && streamUrl == old(streamUrl) && showForm == old(showForm) && alert == old(alert)
      ensures uploading == old(uploading)
    {
      musicFiles := Without(musicFiles, url);
    }

    /** `handleSubmit`: the group is created with what the form holds;
        `writeFails` says whether the create throws. A created group empties
        and hides the form, a failed one leaves it as it was. */
    method HandleSubmit(newId: string, now: int, writeFails: bool) returns (created: bool)
      requires newId !in store.groups
      modifies this, store
      ensures created <==> !writeFails
      ensures created ==>
                store.groups == old(store.groups)[newId := GroupDoc(newId, Some(old(name)), Some(old(streamUrl)), Some(old(musicFiles)), None, Some(now))]
                && name == "" && streamUrl == "" && musicFiles == [] && !showForm && alert == Some(GROUP_CREATED)
      ensures !created ==>
                store.groups == old(store.groups)
                && name == old(name) && streamUrl == old(streamUrl) && musicFiles == old(musicFiles)
                && showForm == old(showForm) && alert == Some(CREATE_FAILED)
      ensures uploading == old(uploading)
      ensures store.devices == old(store.devices) && store.commands == old(store.commands)
      ensures store.configUsers == old(store.configUsers) && store.legacyUsers == old(store.legacyUsers)
    {
      if writeFails {
        alert := Some(CREATE_FAILED);
        return false;
      }
      store.CreateGroup(newId, name, streamUrl, musicFiles, now);
      name, streamUrl, musicFiles := "", "", [];
      showForm := false;
      alert := Some(GROUP_CREATED);
      created := true;
    }
  }

  /** Where the last segment of `url` starts: just after its last `/`, or
      at 0 when it has none. */
  function SegmentStart(url: string): (k: nat)
    ensures k <= |url|
    ensures forall i :: k <= i < |url| ==> url[i] != '/'
    ensures 0 < k ==> url[k - 1] == '/'
  {
    if url == [] then 0
    else if url[|url| - 1] == '/' then |url|
    else SegmentStart(url[..|url| - 1])
  }

  /** `url.split('/').pop()`: what follows the last `/`, or all of `url`
      when it has none. */
  function LastSegment(url: string): (r: string)
    ensures '/' !in r
    ensures |r| <= |url| && r == url[|url| - |r|..]
    ensures |r| < |url| ==> url[|url| - |r| - 1] == '/'
  {
    var k := SegmentStart(url);
    assert forall i :: 0 <= i < |url| - k ==> url[k..][i] == url[k + i];
    url[k..]
  }

  /** Where the query of `s` starts: at its first `?`, or at its end. */
  function QueryStart(s: string): (k: nat)
    ensures k <= |s|
    ensures forall i :: 0 <= i < k ==> s[i] != '?'
    ensures k < |s| ==> s[k] == '?'
  {
    if s == [] then 0
    else if s[0] == '?' then 0
    else 1 + QueryStart(s[1..])
  }

  /** `s.split('?')[0]`: what precedes the first `?`, or all of `s`. */
  function BeforeQuery(s: string): (r: string)
    ensures '?' !in r
    ensures |r| <= |s| && r == s[..|r|]
    ensures |r| < |s| ==> s[|r|] == '?'
  {
    var k := QueryStart(s);
    assert forall i :: 0 <= i < k ==> s[..k][i] == s[i];
    s[..k]
  }

  /** The name shown for an uploaded file: the URL's last segment, cut
      before its query and percent-decoded. `None` is the URIError that
      a malformed escape raises while the list is drawn. */
  function FileLabel(url: string): Option<string>
  {
    UriComponent.Decode(BeforeQuery(LastSegment(url)))
  }

  lemma LastSegmentAfterSlash(a: string, b: string)
    requires '/' !in b
    ensures LastSegment(a + "/" + b) == b
  {
    var s := a + "/" + b;
    assert s[|a|] == '/' && s[|a| + 1..] == b;
    assert forall i :: |a| + 1 <= i < |s| ==> s[i] == b[i - |a| - 1];
    assert SegmentStart(s) == |a| + 1;
  }

  lemma BeforeQueryOf(e: string, q: string)
    requires '?' !in e
    ensures BeforeQuery(e + "?" + q) == e
  {
    var s := e + "?" + q;
    assert s[|e|] == '?' && s[..|e|] == e;
    assert forall i :: 0 <= i < |e| ==> s[i] == e[i];
    assert QueryStart(s) == |e|;
  }

  /** A URL whose last segment is a percent-encoded object path followed by
      a query is labelled with the whole path, folder included: an upload's
      file is listed as `music/<time>_<name>`. */
  lemma LabelOfDownloadUrl(base: string, path: string, query: string)
    requires '/' !in query
    ensures FileLabel(base + "/" + UriComponent.Encode(path) + "?" + query) == Some(path)
  {
    var e := UriComponent.Encode(path);
    assert base + "/" + e + "?" + query == base + "/" + (e + "?" + query);
    LastSegmentAfterSlash(base, e + "?" + query);
    BeforeQueryOf(e, query);
    UriComponent.DecodeEncode(path);
  }

  /** A `%` in the last segment that starts no escape makes the label
      fail. */
  lemma MalformedEscapeFails()
    ensures FileLabel("o/%zz") == None
  {
    LastSegmentAfterSlash("o", "%zz");
    assert BeforeQuery("%zz") == "%zz";
    assert UriComponent.EscapeAt("%zz", 0) == None;
  }

  /** The card's subtitle: the group's stream, or "Lokala filer" when it
      has none. */
  function StreamLabel(g: GroupDoc): (s: string)
    ensures Truthy(g.streamUrl) ==> s == g.streamUrl.value
    ensures !Truthy(g.streamUrl) ==> s == LOCAL_FILES
  {
    OrElse(g.streamUrl, LOCAL_FILES)
  }

  /** The card's file count, shown only for a non-empty list. */
  function FilesBadge(g: GroupDoc): (n: Option<nat>)
    ensures n.Some? <==> g.musicFiles.Some? && g.musicFiles.value != []
    ensures n.Some? ==> n.value == |g.musicFiles.value|
  {
    if g.musicFiles.Some? && g.musicFiles.value != [] then Some(|g.musicFiles.value|) else None
  }
}
