/**
 * An Azure blob container reduced to what the pipeline uses: a map from
 * blob name to stored blob, a flag for whether the container has been
 * created, `CreateIfNotExistsAsync`, `ExistsAsync`, an overwriting
 * `UploadAsync`, and the URI `GetBlobClient(name).Uri` gives a blob.
 * Whether a call fails (network, authorisation, quota) is a property of
 * the backend, fixed for the life of the container object.
 */
module BlobStore {
  import opened Wrappers
  import opened Imaging

  /** A stored blob: its content and the Content-Type header it was uploaded with, if any. */
  datatype Blob = Blob(payload: Payload, contentType: Option<string>)

  /**
   * The service behind the container: the container's URI and the requests
   * it answers with an exception (and that exception's message).
   */
  datatype Backend = Backend(
    containerUri: string,
    provisionFault: Option<string>,
    queryFaults: map<string, string>,
    writeFaults: map<string, string>)

  /** The container's state as a value. */
  datatype Store = Store(blobs: map<string, Blob>, provisioned: bool)

  /** What an upload into a container that was never created fails with. */
  const ContainerNotFound: string := "The specified container does not exist."

  /** `GetBlobClient(key).Uri`: the container URI, a separator, the blob name. */
  function Uri(b: Backend, key: string): string {
    b.containerUri + "/" + key
  }

  /** `CreateIfNotExistsAsync`: the exception it throws, or the container created. */
  function Provision(b: Backend, s: Store): Result<Store> {
    match b.provisionFault
    case Some(m) => Failure(m)
    case None => Success(s.(provisioned := true))
  }

  /** `ExistsAsync` on one blob name. */
  function Query(b: Backend, s: Store, key: string): Result<bool> {
    if key in b.queryFaults then Failure(b.queryFaults[key]) else Success(key in s.blobs)
  }

  /** The exception an upload of `key` throws, if any. */
  function UploadFault(b: Backend, s: Store, key: string): Option<string> {
    if !s.provisioned then Some(ContainerNotFound)
    else if key in b.writeFaults then Some(b.writeFaults[key])
    else None
  }

  /** An overwriting upload: the blob's URI and the store with that one name set, or the exception and the store as it was. */
  function Put(b: Backend, s: Store, key: string, blob: Blob): (Result<string>, Store) {
    match UploadFault(b, s, key)
    case Some(m) => (Failure(m), s)
    case None => (Success(Uri(b, key)), s.(blobs := s.blobs[key := blob]))
  }

  /**
   * An upload succeeds exactly when the container exists and the backend
   * accepts that name; it then returns the name's URI and sets that one
   * name, leaving every other blob as it was; a failed upload changes nothing.
   */
  lemma PutFrame(b: Backend, s: Store, key: string, blob: Blob, other: string)
    requires other != key
    ensures Put(b, s, key, blob).0.Success? <==> s.provisioned && key !in b.writeFaults
    ensures Put(b, s, key, blob).0.Success? ==>
              Put(b, s, key, blob).0.value == Uri(b, key) && Put(b, s, key, blob).1.blobs[key] == blob
    ensures Put(b, s, key, blob).0.Failure? ==> Put(b, s, key, blob).1 == s
    ensures Put(b, s, key, blob).1.provisioned == s.provisioned
    ensures other in Put(b, s, key, blob).1.blobs <==> other in s.blobs
    ensures other in s.blobs ==> Put(b, s, key, blob).1.blobs[other] == s.blobs[other]
  {
  }

  /** The blobs after writing `items` in order, a later write to a name replacing an earlier one. */
  function Stored(blobs: map<string, Blob>, items: seq<(string, Blob)>): map<string, Blob>
    decreases |items|
  {
    if items == [] then blobs else Stored(blobs[items[0].0 := items[0].1], items[1..])
  }

  /** The outcome of uploading a sequence of blobs one after another, stopping at the first exception. */
  datatype Uploaded = Uploaded(uris: seq<string>, fault: Option<string>, store: Store)

  /**
   * A run of awaited uploads, stopping at the first exception: the URIs of
   * the uploads that succeeded, in order; the exception that stopped the
   * run, which is the one the next upload raises, if one did; and a store
   * holding every upload made before the failure, nothing rolled back and
   * nothing else changed.
   */
  function UploadAll(b: Backend, s: Store, items: seq<(string, Blob)>): (r: Uploaded)
    ensures |r.uris| <= |items|
    ensures r.fault.None? <==> |r.uris| == |items|
    ensures forall i :: 0 <= i < |r.uris| ==> r.uris[i] == Uri(b, items[i].0)
    ensures r.store == Store(Stored(s.blobs, items[..|r.uris|]), s.provisioned)
    ensures r.fault.Some? ==> r.fault == UploadFault(b, r.store, items[|r.uris|].0)
    decreases |items|
  {
    if items == [] then Uploaded([], None, s)
    else
      var (first, s1) := Put(b, s, items[0].0, items[0].1);
      match first
      case Failure(m) => Uploaded([], Some(m), s)
      case Success(u) =>
        var rest := UploadAll(b, s1, items[1..]);
        assert items[..|rest.uris| + 1][1..] == items[1..][..|rest.uris|];
        Uploaded([u] + rest.uris, rest.fault, rest.store)
  }

  /** A run of three awaited uploads, spelled out: each is attempted only once the one before it succeeded. */
  function UploadThree(b: Backend, s: Store, x: (string, Blob), y: (string, Blob), z: (string, Blob)): (r: Uploaded)
    ensures r.fault.None? ==> |r.uris| == 3
  {
    var (r1, s1) := Put(b, s, x.0, x.1);
    if r1.Failure? then Uploaded([], Some(r1.error), s) else
    var (r2, s2) := Put(b, s1, y.0, y.1);
    if r2.Failure? then Uploaded([r1.value], Some(r2.error), s1) else
    var (r3, s3) := Put(b, s2, z.0, z.1);
    if r3.Failure? then Uploaded([r1.value, r2.value], Some(r3.error), s2)
    else Uploaded([r1.value, r2.value, r3.value], None, s3)
  }

  /**
   * Three uploads keep the container's state and every existing name; when
   * none fails they return the three names' URIs in order and each name
   * ends up holding its blob.
   */
  lemma UploadThreeShape(b: Backend, s: Store, x: (string, Blob), y: (string, Blob), z: (string, Blob))
    ensures UploadThree(b, s, x, y, z).store.provisioned == s.provisioned
    ensures s.blobs.Keys <= UploadThree(b, s, x, y, z).store.blobs.Keys
    ensures UploadThree(b, s, x, y, z).fault.None? ==> UploadThree(b, s, x, y, z).uris == [Uri(b, x.0), Uri(b, y.0), Uri(b, z.0)]
    ensures UploadThree(b, s, x, y, z).fault.None? ==> UploadThree(b, s, x, y, z).store.blobs == s.blobs[x.0 := x.1][y.0 := y.1][z.0 := z.1]
  {
  }

  /**
   * Three uploads change no name outside the three, and leave the last
   * name as it was when any of them fails.
   */
  lemma UploadThreeFrame(b: Backend, s: Store, x: (string, Blob), y: (string, Blob), z: (string, Blob), key: string)
    requires key != x.0 && key != y.0
    requires key != z.0 || UploadThree(b, s, x, y, z).fault.Some?
    ensures key in UploadThree(b, s, x, y, z).store.blobs <==> key in s.blobs
    ensures key in s.blobs ==> UploadThree(b, s, x, y, z).store.blobs[key] == s.blobs[key]
  {
  }

  /** Uploads read only the container's URI and the backend's write faults. */
  lemma UploadThreeReads(b: Backend, c: Backend, s: Store, x: (string, Blob), y: (string, Blob), z: (string, Blob))
    requires b.containerUri == c.containerUri && b.writeFaults == c.writeFaults
    ensures UploadThree(b, s, x, y, z) == UploadThree(c, s, x, y, z)
  {
  }

  /** Three uploads spelled out are the general run of uploads over a three-element sequence. */
  lemma UploadAllThree(b: Backend, s: Store, x: (string, Blob), y: (string, Blob), z: (string, Blob))
    ensures UploadAll(b, s, [x, y, z]) == UploadThree(b, s, x, y, z)
  {
    assert [x, y, z][1..] == [y, z] && [y, z][1..] == [z] && [z][1..] == [];
    var (r1, s1) := Put(b, s, x.0, x.1);
    var (r2, s2) := Put(b, s1, y.0, y.1);
    var (r3, s3) := Put(b, s2, z.0, z.1);
    assert UploadAll(b, s2, [z]) == if r3.Failure? then Uploaded([], Some(r3.error), s2) else Uploaded([r3.value], None, s3);
    assert UploadAll(b, s1, [y, z]) == if r2.Failure? then Uploaded([], Some(r2.error), s1) else
      var rest := UploadAll(b, s2, [z]); Uploaded([r2.value] + rest.uris, rest.fault, rest.store);
  }

  /** Writing three blobs in order: the third write is the last word on its name. */
  lemma StoredThree(blobs: map<string, Blob>, a: (string, Blob), b: (string, Blob), c: (string, Blob))
    ensures Stored(blobs, [a, b, c]) == blobs[a.0 := a.1][b.0 := b.1][c.0 := c.1]
    ensures Stored(blobs, [a, b, c][..2]) == blobs[a.0 := a.1][b.0 := b.1]
    ensures Stored(blobs, [a, b, c][..1]) == blobs[a.0 := a.1]
    ensures Stored(blobs, [a, b, c][..0]) == blobs
  {
    var m1 := blobs[a.0 := a.1];
    var m2 := m1[b.0 := b.1];
    assert [a, b, c][1..] == [b, c] && [b, c][1..] == [c] && [c][1..] == [];
    assert Stored(m2, [c]) == m2[c.0 := c.1];
    assert Stored(m1, [b, c]) == Stored(m2, [c]);
    assert [a, b, c][..2] == [a, b] && [a, b][1..] == [b] && [b][1..] == [];
    assert Stored(m1, [b]) == m2;
    assert [a, b, c][..1] == [a];
  }

  /** Distinct names give distinct URIs within one container. */
  lemma UriInjective(b: Backend, k1: string, k2: string)
    requires Uri(b, k1) == Uri(b, k2)
    ensures k1 == k2
  {
    var n := |b.containerUri| + 1;
    assert k1 == Uri(b, k1)[n..];
    assert k2 == Uri(b, k2)[n..];
  }

  /** A blob container client bound to one container of one storage account. */
  class Container {
    const backend: Backend
    var blobs: map<string, Blob>
    var provisioned: bool

    function State(): Store
      reads this
    {
      Store(blobs, provisioned)
    }

    constructor (backend: Backend, blobs: map<string, Blob>, provisioned: bool)
      ensures this.backend == backend && State() == Store(blobs, provisioned)
    {
      this.backend := backend;
      this.blobs := blobs;
      this.provisioned := provisioned;
    }

    /** `CreateIfNotExistsAsync`: the exception message, or none once the container exists. */
    method CreateIfNotExists() returns (fault: Option<string>)
      modifies this
      ensures fault == backend.provisionFault
      ensures blobs == old(blobs)
      ensures provisioned == (old(provisioned) || fault.None?)
      ensures fault.None? <==> Provision(backend, old(State())).Success?
      ensures fault.None? ==> State() == Provision(backend, old(State())).value
      ensures fault.Some? ==> State() == old(State())
    {
      fault := backend.provisionFault;
      if fault.None? {
        provisioned := true;
      }
    }

    /** `GetBlobClient(key).ExistsAsync()`: reads, changes nothing. */
    method Exists(key: string) returns (r: Result<bool>)
      ensures r == Query(backend, State(), key)
      ensures r.Success? ==> (r.value <==> key in blobs)
    {
      if key in backend.queryFaults {
        r := Failure(backend.queryFaults[key]);
      } else {
        r := Success(key in blobs);
      }
    }

    /** `GetBlobClient(key).UploadAsync(...)`, overwriting any blob of that name. */
    method Upload(key: string, blob: Blob) returns (r: Result<string>)
      modifies this
      ensures (r, State()) == Put(backend, old(State()), key, blob)
      ensures r.Success? ==> r.value == Uri(backend, key) && blobs == old(blobs)[key := blob]
      ensures r.Failure? ==> blobs == old(blobs)
      ensures provisioned == old(provisioned)
    {
      var fault := UploadFault(backend, State(), key);
      if fault.Some? {
        r := Failure(fault.value);
      } else {
        blobs := blobs[key := blob];
        r := Success(Uri(backend, key));
      }
    }
  }
}
