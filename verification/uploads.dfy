/** Upload of a step's artifact: the write-once blob store, and the evidence rows that record it. */
module Uploads {
  import opened Catalog
  import opened Lifecycle
  import opened BlobKeys

  type Bytes = seq<bv8>

  type Digest = string

  /** Evidence rows; a row's id is its index. */
  datatype FileRow = FileRow(filename: string, key: string, size: nat, digest: Digest)

  datatype LinkRow = LinkRow(order: string, file: nat)

  /** The blob store and the two evidence tables. */
  datatype Holdings = Holdings(blobs: map<string, Bytes>, files: seq<FileRow>, links: seq<LinkRow>)

  /** What a document knows of its stored artifact. */
  datatype Artifact = Artifact(key: string, filename: string, size: nat, digest: Digest, file: nat, link: nat)

  datatype DocError = SourceUnavailable | Timeout | ParcelNotFound | InternalError | UploadFailed

  /** service.FetchedDocument, without its display texts. */
  datatype Doc = Doc(status: FinalStatus, artifact: Option<Artifact>, error: Option<DocError>)

  /** A copy into the store: complete, or failed, perhaps leaving something under the key. */
  datatype Copy = Copied | CopyFailed(left: Option<Bytes>)

  /** What the disk, the store and the database do during one upload. probeFails: the existence probe
      raises, which the store reports as "absent". */
  datatype Weather = Weather(staged: map<string, Bytes>, probeFails: bool, copy: Copy, recordable: bool)

  /** Whose artifact it is. */
  datatype Owner = Owner(tenant: Option<string>, order: string, document: string)

  datatype Effect = Effect(after: Holdings, doc: Doc)

  // ------------------------------------------------------------ adapters._upload_artifact

  /** The first file that is on disk; files that are not are passed over. */
  function FirstStaged(names: seq<string>, staged: map<string, Bytes>): Option<string> {
    if names == [] then None else if names[0] in staged then Some(names[0]) else FirstStaged(names[1..], staged)
  }

  function KeyFor(o: Owner, filename: string): Option<string> {
    BuildKey(OrgOf(o.tenant), o.order, o.document, filename)
  }

  function Spoiled(d: Doc): Doc {
    d.(status := DocFailed, error := Some(UploadFailed))
  }

  /** evidence_source.create_evidence: both rows in one transaction. */
  function Recorded(h: Holdings, o: Owner, f: FileRow): Holdings {
    h.(files := h.files + [f], links := h.links + [LinkRow(o.order, |h.files|)])
  }

  function Record(h: Holdings, d: Doc, o: Owner, key: string, filename: string, bytes: Bytes, w: Weather, sha: Bytes -> Digest): Effect {
    if !w.recordable then Effect(h, Spoiled(d))
    else
      var row := FileRow(filename, key, |bytes|, sha(bytes));
      Effect(Recorded(h, o, row),
               d.(status := Uploaded,
                  artifact := Some(Artifact(key, filename, |bytes|, sha(bytes), |h.files|, |h.links|))))
  }

  /** Whether the store says that the key is taken. */
  predicate SeenTaken(h: Holdings, key: string, w: Weather) {
    key in h.blobs && !w.probeFails
  }

  function Put(h: Holdings, key: string, bytes: Bytes): Holdings {
    h.(blobs := h.blobs[key := bytes])
  }

  /** What the existence probe says about the key of an upload. */
  predicate ProbeSays(h: Holdings, names: seq<string>, o: Owner, w: Weather) {
    var f := FirstStaged(names, w.staged);
    f.Some? && KeyFor(o, f.value).Some? && SeenTaken(h, KeyFor(o, f.value).value, w)
  }

  function Upload(h: Holdings, d: Doc, names: seq<string>, o: Owner, w: Weather, sha: Bytes -> Digest): Effect {
    Store(h, d, names, o, w, sha, ProbeSays(h, names, o, w))
  }

  /** The upload after its probe, which said whether the key is taken. */
  function Store(h: Holdings, d: Doc, names: seq<string>, o: Owner, w: Weather, sha: Bytes -> Digest, taken: bool): Effect {
    match FirstStaged(names, w.staged)
    case None => Effect(h, d)
    case Some(f) =>
      var bytes := if f in w.staged then w.staged[f] else [];
      match KeyFor(o, f)
      case None => Effect(h, Spoiled(d))
      case Some(key) =>
        if taken then Record(h, d, o, key, f, bytes, w, sha)
        else match w.copy
          case Copied => Record(Put(h, key, bytes), d, o, key, f, bytes, w, sha)
          case CopyFailed(None) => Effect(h, Spoiled(d))
          case CopyFailed(Some(left)) => Effect(Put(h, key, left), Spoiled(d))
  }

  function Reference(h: Holdings, id: nat): Option<FileRow> {
    if id < |h.files| then Some(h.files[id]) else None
  }

  /** The store and the tables as they are mutated. */
  class Vault {
    var blobs: map<string, Bytes>
    var files: seq<FileRow>
    var links: seq<LinkRow>

    constructor ()
      ensures Held() == Holdings(map[], [], [])
    {
      blobs, files, links := map[], [], [];
    }

    function Held(): Holdings
      reads this
    {
      Holdings(blobs, files, links)
    }

    /** LocalStorage.exists: a probe that raises answers no. */
    method Exists(key: string, w: Weather) returns (taken: bool)
      ensures taken == SeenTaken(Held(), key, w)
    {
      taken := !w.probeFails && key in blobs;
    }

    /** LocalStorage.copy_in */
    method CopyIn(key: string, bytes: Bytes, w: Weather) returns (done: bool)
      modifies this`blobs
      ensures done == w.copy.Copied?
      ensures forall k :: k != key ==> (k in blobs <==> k in old(blobs)) && (k in blobs ==> blobs[k] == old(blobs)[k])
      ensures match w.copy
        case Copied => blobs == old(blobs)[key := bytes]
        case CopyFailed(None) => blobs == old(blobs)
        case CopyFailed(Some(left)) => blobs == old(blobs)[key := left]
    {
      done := w.copy.Copied?;
      if done {
        blobs := blobs[key := bytes];
      } else if w.copy.left.Some? {
        blobs := blobs[key := w.copy.left.value];
      }
    }

    /** create_evidence; nothing is kept of a transaction that fails. */
    method CreateEvidence(o: Owner, row: FileRow, w: Weather) returns (ids: Option<(nat, nat)>)
      modifies this`files, this`links
      ensures w.recordable <==> ids.Some?
      ensures ids.Some? ==> Held() == Recorded(old(Held()), o, row) && ids.value == (|old(files)|, |old(links)|)
      ensures ids.None? ==> Held() == old(Held())
    {
      if !w.recordable { return None; }
      ids := Some((|files|, |links|));
      files := files + [row];
      links := links + [LinkRow(o.order, |files| - 1)];
    }

    /** evidence_source.get_file_reference */
    method GetFileReference(id: nat) returns (row: Option<FileRow>)
      ensures row == Reference(Held(), id)
    {
      row := if id < |files| then Some(files[id]) else None;
    }

    method UploadArtifact(d: Doc, names: seq<string>, o: Owner, w: Weather, sha: Bytes -> Digest) returns (d': Doc)
      modifies this
      ensures Effect(Held(), d') == Upload(old(Held()), d, names, o, w, sha)
    {
      hide KeyFor;
      for i := 0 to |names|
        invariant Held() == old(Held())
        invariant FirstStaged(names[i..], w.staged) == FirstStaged(names, w.staged)
      {
        var filename := names[i];
        if filename !in w.staged { continue; }
        var bytes := w.staged[filename];
        var key := KeyFor(o, filename);
        if key.None? { return Spoiled(d); }
        var taken := Exists(key.value, w);
        if !taken {
          var done := CopyIn(key.value, bytes, w);
          if !done { return Spoiled(d); }
        }
        var ids := CreateEvidence(o, FileRow(filename, key.value, |bytes|, sha(bytes)), w);
        if ids.None? { return Spoiled(d); }
        return d.(status := Uploaded,
                  artifact := Some(Artifact(key.value, filename, |bytes|, sha(bytes), ids.value.0, ids.value.1)));
      }
      return d;
    }
  }

  // ------------------------------------------------------------ write once

  /** The bytes one upload writes under a key, if any. */
  function Written(names: seq<string>, w: Weather): Option<Bytes> {
    var f := FirstStaged(names, w.staged);
    match w.copy
    case Copied => if f.Some? && f.value in w.staged then Some(w.staged[f.value]) else None
    case CopyFailed(left) => if f.Some? then left else None
  }

  function Target(names: seq<string>, o: Owner, w: Weather): Option<string> {
    var f := FirstStaged(names, w.staged);
    if f.Some? then KeyFor(o, f.value) else None
  }

  lemma {:induction false} FirstStagedIsStaged(names: seq<string>, staged: map<string, Bytes>)
    ensures var f := FirstStaged(names, staged);
      (f.Some? ==> f.value in names && f.value in staged) && (f.None? ==> forall n :: n in names ==> n !in staged)
  {
    if names != [] {
      assert names == [names[0]] + names[1..];
      FirstStagedIsStaged(names[1..], staged);
    }
  }

  /** The file that is uploaded is the first one on disk: every name before it is not there. */
  lemma {:induction false} FirstStagedIsFirst(names: seq<string>, staged: map<string, Bytes>) returns (i: nat)
    ensures FirstStaged(names, staged).Some? ==> i < |names| && FirstStaged(names, staged).value == names[i] && names[i] in staged
    ensures FirstStaged(names, staged).None? ==> i == |names|
    ensures i <= |names| && forall j :: 0 <= j < i ==> names[j] !in staged
  {
    i := 0;
    if names != [] && names[0] !in staged {
      i := FirstStagedIsFirst(names[1..], staged);
      i := i + 1;
    }
  }

  /** So an artifact is that of the first of the step's files that is on disk. */
  lemma ArtifactIsFirst(h: Holdings, d: Doc, names: seq<string>, o: Owner, w: Weather, sha: Bytes -> Digest) returns (i: nat)
    requires d.artifact.None?
    ensures Upload(h, d, names, o, w, sha).doc.artifact.Some? ==>
      var a := Upload(h, d, names, o, w, sha).doc.artifact.value;
      && i < |names| && a.filename == names[i] && names[i] in w.staged
      && (forall j :: 0 <= j < i ==> names[j] !in w.staged)
      && KeyFor(o, a.filename) == Some(a.key) && a.size == |w.staged[names[i]]| && a.digest == sha(w.staged[names[i]])
  {
    hide KeyFor;
    i := FirstStagedIsFirst(names, w.staged);
  }

  /** A stored blob changes in an upload exactly when the probe of its own key failed and other bytes
      were written; otherwise the store says it exists and it is left alone. No blob is ever removed,
      and the evidence rows only grow. */
  lemma BlobChangesIff(h: Holdings, d: Doc, names: seq<string>, o: Owner, w: Weather, sha: Bytes -> Digest, k: string)
    requires k in h.blobs
    ensures var after := Upload(h, d, names, o, w, sha).after;
      && k in after.blobs && h.files <= after.files && h.links <= after.links
      && (after.blobs[k] != h.blobs[k] <==>
            w.probeFails && Target(names, o, w) == Some(k) && Written(names, w).Some? && Written(names, w).value != h.blobs[k])
  {
    hide KeyFor;
    FirstStagedIsStaged(names, w.staged);
  }

  /** Two uploads that overlap: one probed the store h and stores into what the others have made of it
      since. It overwrites a blob exactly if its probe found the key free, or failed, and other bytes
      are there by now. */
  lemma RacedStoreChangesIff(h: Holdings, since: Holdings, d: Doc, names: seq<string>, o: Owner, w: Weather,
                             sha: Bytes -> Digest, k: string)
    requires k in since.blobs
    ensures var after := Store(since, d, names, o, w, sha, ProbeSays(h, names, o, w)).after;
      && k in after.blobs
      && (after.blobs[k] != since.blobs[k] <==>
            (k !in h.blobs || w.probeFails) && Target(names, o, w) == Some(k)
            && Written(names, w).Some? && Written(names, w).value != since.blobs[k])
  {
    hide KeyFor;
    FirstStagedIsStaged(names, w.staged);
  }

  /** One upload of a history. */
  datatype Call = Call(doc: Doc, names: seq<string>, owner: Owner, weather: Weather)

  function After(h: Holdings, cs: seq<Call>, sha: Bytes -> Digest): Holdings
    decreases cs
  {
    if cs == [] then h
    else After(Upload(h, cs[0].doc, cs[0].names, cs[0].owner, cs[0].weather, sha).after, cs[1..], sha)
  }

  /** Over any history of uploads in which every probe answered, the bytes under a key never change
      once there are any, and no evidence row changes. */
  lemma {:induction false} BlobsAreForever(h: Holdings, cs: seq<Call>, sha: Bytes -> Digest)
    requires forall i :: 0 <= i < |cs| ==> !cs[i].weather.probeFails
    ensures var after := After(h, cs, sha);
      && (forall k :: k in h.blobs ==> k in after.blobs && after.blobs[k] == h.blobs[k])
      && h.files <= after.files && h.links <= after.links
    decreases cs
  {
    hide Upload, KeyFor, Written, Target;
    if cs != [] {
      var c := cs[0];
      var next := Upload(h, c.doc, c.names, c.owner, c.weather, sha).after;
      forall k | k in h.blobs ensures k in next.blobs && next.blobs[k] == h.blobs[k] {
        BlobChangesIff(h, c.doc, c.names, c.owner, c.weather, sha, k);
      }
      assert h.files <= next.files && h.links <= next.links by { RowsGrow(h, c, sha); }
      BlobsAreForever(next, cs[1..], sha);
    }
  }

  lemma RowsGrow(h: Holdings, c: Call, sha: Bytes -> Digest)
    ensures var next := Upload(h, c.doc, c.names, c.owner, c.weather, sha).after; h.files <= next.files && h.links <= next.links
  {
    hide KeyFor;
  }

  predicate PlainOwner(o: Owner) {
    '/' !in OrgOf(o.tenant) && '/' !in o.order && '/' !in o.document && '.' !in o.document
  }

  /** Uploads for other documents, whatever their file names and whatever goes wrong in them, never
      touch a document's blobs. */
  lemma {:induction false} OthersNeverTouch(h: Holdings, cs: seq<Call>, o: Owner, filename: string, sha: Bytes -> Digest)
    requires PlainOwner(o) && KeyFor(o, filename).Some?
    requires forall i :: 0 <= i < |cs| ==> PlainOwner(cs[i].owner)
    requires forall i :: 0 <= i < |cs| ==>
      (OrgOf(cs[i].owner.tenant), cs[i].owner.order, cs[i].owner.document) != (OrgOf(o.tenant), o.order, o.document)
    ensures var k, after := KeyFor(o, filename).value, After(h, cs, sha);
      (k in h.blobs <==> k in after.blobs) && (k in h.blobs ==> after.blobs[k] == h.blobs[k])
    decreases cs
  {
    hide KeyFor, Upload, PlainOwner;
    if cs != [] {
      OtherKey(h, cs[0], o, filename, sha);
      OthersNeverTouch(Upload(h, cs[0].doc, cs[0].names, cs[0].owner, cs[0].weather, sha).after, cs[1..], o, filename, sha);
    }
  }

  lemma OtherKey(h: Holdings, c: Call, o: Owner, filename: string, sha: Bytes -> Digest)
    requires PlainOwner(o) && PlainOwner(c.owner) && KeyFor(o, filename).Some?
    requires (OrgOf(c.owner.tenant), c.owner.order, c.owner.document) != (OrgOf(o.tenant), o.order, o.document)
    ensures var k, next := KeyFor(o, filename).value, Upload(h, c.doc, c.names, c.owner, c.weather, sha).after;
      (k in h.blobs <==> k in next.blobs) && (k in h.blobs ==> next.blobs[k] == h.blobs[k])
  {
    hide BuildKey;
    var f := FirstStaged(c.names, c.weather.staged);
    if f.Some? && KeyFor(c.owner, f.value) == KeyFor(o, filename) {
      KeyTellsDocument(OrgOf(c.owner.tenant), c.owner.order, c.owner.document, f.value,
                       OrgOf(o.tenant), o.order, o.document, filename);
    }
  }

  // ------------------------------------------------------------ evidence

  /** Every link row has its file row, and every file row's blob is in the store. */
  predicate Sound(h: Holdings) {
    && (forall i :: 0 <= i < |h.links| ==> h.links[i].file < |h.files|)
    && (forall i :: 0 <= i < |h.files| ==> h.files[i].key in h.blobs)
  }

  /** A document that was given an artifact has both its rows, and its blob is stored. */
  predicate Backed(h: Holdings, a: Artifact, order: string) {
    && a.file < |h.files| && h.files[a.file] == FileRow(a.filename, a.key, a.size, a.digest)
    && a.link < |h.links| && h.links[a.link] == LinkRow(order, a.file)
    && a.key in h.blobs
  }

  lemma UploadIsBacked(h: Holdings, d: Doc, names: seq<string>, o: Owner, w: Weather, sha: Bytes -> Digest)
    requires Sound(h) && d.artifact.None?
    ensures var u := Upload(h, d, names, o, w, sha);
      Sound(u.after) && (u.doc.artifact.Some? ==> Backed(u.after, u.doc.artifact.value, o.order))
  {
    hide KeyFor;
  }

  /** Backing lasts: over any further uploads, failing probes included, the rows stay and the key
      stays in the store. */
  lemma {:induction false} BackingLasts(h: Holdings, cs: seq<Call>, sha: Bytes -> Digest, a: Artifact, order: string)
    requires Backed(h, a, order)
    ensures Backed(After(h, cs, sha), a, order)
    decreases cs
  {
    hide Upload;
    if cs != [] {
      var c := cs[0];
      var next := Upload(h, c.doc, c.names, c.owner, c.weather, sha).after;
      RowsGrow(h, c, sha);
      BlobChangesIff(h, c.doc, c.names, c.owner, c.weather, sha, a.key);
      BackingLasts(next, cs[1..], sha, a, order);
    }
  }

  /** Round trip: the file id a document is given leads back, after any further uploads, to the row that
      was recorded for it, whose blob is in the store. */
  lemma ReferenceRoundTrip(h: Holdings, d: Doc, names: seq<string>, o: Owner, w: Weather, cs: seq<Call>, sha: Bytes -> Digest)
    requires Sound(h) && d.artifact.None?
    ensures var u := Upload(h, d, names, o, w, sha); u.doc.artifact.Some? ==>
      var a, later := u.doc.artifact.value, After(u.after, cs, sha);
      && Reference(later, a.file) == Some(FileRow(a.filename, a.key, a.size, a.digest)) && a.key in later.blobs
      && a.filename in w.staged && a.size == |w.staged[a.filename]| && a.digest == sha(w.staged[a.filename])
  {
    FirstStagedIsStaged(names, w.staged);
    UploadIsBacked(h, d, names, o, w, sha);
    var u := Upload(h, d, names, o, w, sha);
    if u.doc.artifact.Some? { BackingLasts(u.after, cs, sha, u.doc.artifact.value, o.order); }
    hide KeyFor, After;
  }

  /** The recorded digest describes the stored blob exactly when the key was not found taken or the
      new file has the digest of the blob already there: a taken key is recorded with the digest of
      the file that was not stored. */
  lemma DigestDescribesBlobIff(h: Holdings, d: Doc, names: seq<string>, o: Owner, w: Weather, sha: Bytes -> Digest)
    requires d.artifact.None? && Upload(h, d, names, o, w, sha).doc.artifact.Some?
    ensures var u := Upload(h, d, names, o, w, sha);
      var a := u.doc.artifact.value;
      && a.key in u.after.blobs && a.filename in w.staged
      && (a.digest == sha(u.after.blobs[a.key]) <==>
            !SeenTaken(h, a.key, w) || sha(w.staged[a.filename]) == sha(h.blobs[a.key]))
  {
    hide KeyFor;
    FirstStagedIsStaged(names, w.staged);
  }

  /** A run that fetched other bytes for a document already stored records a digest that is not the
      blob's, for any digest function that tells the two apart. */
  lemma StaleDigestExample(first: Bytes, second: Bytes, sha: Bytes -> Digest)
    requires sha(first) != sha(second)
    ensures var o, d := Owner(None, "order", "DEED_SUBJECT_PARCEL"), Doc(Uploaded, None, None);
      var one := Upload(Holdings(map[], [], []), d, ["deed.pdf"], o, Weather(map["deed.pdf" := first], false, Copied, true), sha);
      var two := Upload(one.after, d, ["deed.pdf"], o, Weather(map["deed.pdf" := second], false, Copied, true), sha);
      && two.doc.artifact.Some? && two.doc.artifact.value.key in two.after.blobs
      && two.doc.artifact.value.digest != sha(two.after.blobs[two.doc.artifact.value.key])
  {
    hide Extension;
  }

  // ------------------------------------------------------------ what the status says

  /** The upload went wrong: no key, a copy that failed, or rows that could not be written. */
  predicate GoesWrong(h: Holdings, names: seq<string>, o: Owner, w: Weather) {
    var f := FirstStaged(names, w.staged);
    f.Some? && (KeyFor(o, f.value).None? || !w.recordable
                || (!SeenTaken(h, KeyFor(o, f.value).value, w) && !w.copy.Copied?))
  }

  /** A document whose step was fine fails exactly when its upload went wrong; it stays `uploaded`
      without any artifact exactly when none of its files was on disk. */
  lemma StatusAfterUpload(h: Holdings, d: Doc, names: seq<string>, o: Owner, w: Weather, sha: Bytes -> Digest)
    requires d.status == Uploaded && d.artifact.None?
    ensures var u := Upload(h, d, names, o, w, sha);
      && (u.doc.status == DocFailed <==> GoesWrong(h, names, o, w))
      && (u.doc.status == DocFailed ==> u.doc.error == Some(UploadFailed) && u.doc.artifact.None?)
      && (u.doc.status != DocFailed ==> u.doc.status == Uploaded)
      && (u.doc.status == Uploaded && u.doc.artifact.None? <==> forall n :: n in names ==> n !in w.staged)
  {
    hide KeyFor;
    FirstStagedIsStaged(names, w.staged);
    if FirstStaged(names, w.staged).Some? { assert FirstStaged(names, w.staged).value in names; }
  }

  predicate Clean(w: Weather) {
    !w.probeFails && w.copy == Copied && w.recordable
  }

  /** An upload in which nothing goes wrong gives the document its artifact under its key, whatever is
      in the store, if one of its files is on disk. */
  lemma CleanUploadCompletes(h: Holdings, d: Doc, names: seq<string>, o: Owner, w: Weather, sha: Bytes -> Digest)
    requires Clean(w) && Target(names, o, w).Some?
    ensures var u := Upload(h, d, names, o, w, sha);
      u.doc.status == Uploaded && u.doc.artifact.Some? && u.doc.artifact.value.key == Target(names, o, w).value
  {
    hide KeyFor;
    FirstStagedIsStaged(names, w.staged);
  }

  /** What a failed upload leaves for a clean retry of the same files, where the key was free. If its
      rows failed, the retry records the digest of the blob. If its copy failed and left something
      behind, the retry keeps that and records the digest of the whole file: the blob's exactly if the
      two have one digest. If its copy left nothing, the retry stores the file. */
  lemma RetryAfterFailure(h: Holdings, d: Doc, names: seq<string>, o: Owner, w: Weather, again: Weather, sha: Bytes -> Digest)
    requires d.artifact.None? && GoesWrong(h, names, o, w) && Target(names, o, w).Some?
    requires Target(names, o, w).value !in h.blobs
    requires again.staged == w.staged && Clean(again)
    ensures var u := Upload(Upload(h, d, names, o, w, sha).after, d, names, o, again, sha);
      && u.doc.artifact.Some? && u.doc.artifact.value.filename in w.staged
      && var a, bytes := u.doc.artifact.value, w.staged[u.doc.artifact.value.filename];
         && a.key in u.after.blobs && a.digest == sha(bytes)
         && u.after.blobs[a.key] == (if w.copy.CopyFailed? && w.copy.left.Some? then w.copy.left.value else bytes)
         && (a.digest == sha(u.after.blobs[a.key]) <==>
               w.copy.CopyFailed? && w.copy.left.Some? ==> sha(w.copy.left.value) == sha(bytes))
  {
    hide KeyFor;
    FirstStagedIsStaged(names, w.staged);
  }
}
