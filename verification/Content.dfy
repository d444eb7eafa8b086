/**
 The content tiers: a local cache of sealed objects in front of a durable remote.

 The cipher is ideal: a blob opens under one key, for one content address, to one plaintext.  The
 disk and the remote keep what they hold, but any single write, delete, free-space reading or
 remote call may fail, and every such outcome is left open.
 */
module Content {
  import opened Folds

  newtype Byte = x: int | 0 <= x < 256
  type Bytes = seq<Byte>

  const CAS_PREFIX := "cas/"

  predicate HexDigit(c: char) { '0' <= c <= '9' || 'a' <= c <= 'f' }

  /** The digest a content address names, if it is one. */
  function HashOf(ref: string): (h: Option<string>)
    ensures h.Some? ==> |h.value| == 64 && ref == CAS_PREFIX + h.value
  {
    if CAS_PREFIX <= ref && |ref| == 68 && (forall i :: 4 <= i < 68 ==> HexDigit(ref[i])) then Some(ref[4..]) else None
  }

  /** `sha` is the digest; the keys are the shared one, the older one of each collection, and those
      of earlier eras. */
  datatype Crypto = Crypto(sha: Bytes -> string, key: nat, legacy: string -> Option<nat>,
                           previous: seq<nat>, rekeyPrevious: bool)

  /** What is on disk: a blob shorter than nonce and tag, or a sealed one. */
  datatype Blob = TooShort | Sealed(key: nat, aad: string, plain: Bytes) | Altered

  /** What the remote holds: a blob the shared content cipher opens, or one it does not. */
  datatype RemoteBlob = Cipher(plain: Bytes) | Foreign

  // ── reading a blob ───────────────────────────────────────────────────────────

  datatype Opened = Plain(plain: Bytes, rekey: bool) | Proven | Ambiguous

  /** The shared key, then the collection's older key, then each earlier era. */
  function Decrypt(c: Crypto, blob: Blob, ref: string, collection: string): Opened {
    match blob
    case TooShort => Proven
    case Altered => Ambiguous
    case Sealed(k, aad, plain) =>
      if aad != ref then Ambiguous
      else if k == c.key then Plain(plain, false)
      else if c.legacy(collection) == Some(k) then Plain(plain, true)
      else if k in c.previous then Plain(plain, c.rekeyPrevious)
      else Ambiguous
  }

  datatype Outcome = Data(plain: Bytes) | Miss | Corrupt | KeyMismatch | RemoteMiss | RemoteCorrupt | BadRef

  /** What a read of the local tier yields. */
  function ReadOf(c: Crypto, files: map<string, Blob>, ref: string, collection: string): Outcome {
    match HashOf(ref)
    case None => BadRef
    case Some(h) =>
      if h !in files then Miss
      else match Decrypt(c, files[h], ref, collection)
           case Ambiguous => KeyMismatch
           case Proven => Corrupt
           case Plain(plain, _) => if c.sha(plain) == h then Data(plain) else Corrupt
  }

  /** When a read yields bytes, and which: the address is one, its file is sealed for that very
      address under the shared key, the older key of the collection or an earlier one, and the bytes
      hash to it.  Bytes that open but do not hash to it, and a file too short, are corrupt; a file
      sealed otherwise, or altered, is a mismatch. */
  lemma ReadReads(c: Crypto, files: map<string, Blob>, ref: string, collection: string)
    ensures var well := |ref| == 68 && ref[..4] == "cas/" &&
                        forall i :: 4 <= i < 68 ==> '0' <= ref[i] <= '9' || 'a' <= ref[i] <= 'f';
            var r := ReadOf(c, files, ref, collection);
            if !well then r == BadRef
            else if ref[4..] !in files then r == Miss
            else match files[ref[4..]]
                 case TooShort => r == Corrupt
                 case Altered => r == KeyMismatch
                 case Sealed(k, aad, plain) =>
                   if aad != ref || (k != c.key && c.legacy(collection) != Some(k) && k !in c.previous)
                       then r == KeyMismatch
                   else r == if c.sha(plain) == ref[4..] then Data(plain) else Corrupt
  {
  }

  predicate Readable(c: Crypto, files: map<string, Blob>, ref: string, collection: string) {
    ReadOf(c, files, ref, collection).Data?
  }

  /** The remote holds the object a digest names. */
  predicate Genuine(c: Crypto, objects: map<string, RemoteBlob>, h: string) {
    h in objects && objects[h].Cipher? && c.sha(objects[h].plain) == h
  }

  predicate HonestRemote(c: Crypto, objects: map<string, RemoteBlob>) {
    forall h :: h in objects ==> Genuine(c, objects, h)
  }

  /** The object is readable locally for the collection, or present remotely. */
  predicate Held(c: Crypto, files: map<string, Blob>, objects: map<string, RemoteBlob>, ref: string,
                 collection: string) {
    Readable(c, files, ref, collection) || (HashOf(ref).Some? && Genuine(c, objects, HashOf(ref).value))
  }

  /** Nothing that was held is lost. */
  ghost predicate Conserves(c: Crypto, f0: map<string, Blob>, o0: map<string, RemoteBlob>, f1: map<string, Blob>,
                            o1: map<string, RemoteBlob>) {
    forall ref, collection :: Held(c, f0, o0, ref, collection) ==> Held(c, f1, o1, ref, collection)
  }

  lemma ConservesRefl(c: Crypto, f: map<string, Blob>, o: map<string, RemoteBlob>)
    ensures Conserves(c, f, o, f, o)
  {
  }

  lemma ConservesTrans(c: Crypto, f0: map<string, Blob>, o0: map<string, RemoteBlob>, f1: map<string, Blob>,
                       o1: map<string, RemoteBlob>, f2: map<string, Blob>, o2: map<string, RemoteBlob>)
    requires Conserves(c, f0, o0, f1, o1) && Conserves(c, f1, o1, f2, o2)
    ensures Conserves(c, f0, o0, f2, o2)
  {
  }

  /** Two well-formed addresses of one digest are one address. */
  lemma OneAddress(a: string, b: string)
    requires HashOf(a).Some? && HashOf(a) == HashOf(b)
    ensures a == b
  {
  }

  /** A blob a read proves corrupt is readable for no collection: it opens to one plaintext only. */
  lemma CorruptForAll(c: Crypto, files: map<string, Blob>, ref: string, collection: string, other: string)
    requires ReadOf(c, files, ref, collection).Corrupt?
    ensures !Readable(c, files, ref, other)
  {
  }

  lemma DropCorrupt(c: Crypto, f: map<string, Blob>, o: map<string, RemoteBlob>, ref: string, collection: string)
    requires ReadOf(c, f, ref, collection).Corrupt?
    ensures Conserves(c, f, o, f - {HashOf(ref).value}, o)
  {
    hide Decrypt;
    var h := HashOf(ref).value;
    forall r, coll | Held(c, f, o, r, coll) ensures Held(c, f - {h}, o, r, coll) {
      if HashOf(r) == Some(h) {
        OneAddress(r, ref);
        CorruptForAll(c, f, ref, collection, coll);
      }
    }
  }

  lemma DropDurable(c: Crypto, f: map<string, Blob>, o: map<string, RemoteBlob>, h: string)
    requires Genuine(c, o, h)
    ensures Conserves(c, f, o, f - {h}, o)
  {
    hide Decrypt;
  }

  /** Sealing a verified plaintext at its own address serves every collection. */
  lemma Seal(c: Crypto, f: map<string, Blob>, o: map<string, RemoteBlob>, ref: string, plain: Bytes,
             f1: map<string, Blob>)
    requires HashOf(ref).Some? && c.sha(plain) == HashOf(ref).value &&
        f1 == f[HashOf(ref).value := Sealed(c.key, ref, plain)]
    ensures Conserves(c, f, o, f1, o)
    ensures forall collection :: ReadOf(c, f1, ref, collection) == Data(plain)
  {
    var h := HashOf(ref).value;
    forall r, coll | Held(c, f, o, r, coll) ensures Held(c, f1, o, r, coll) {
      if HashOf(r) == Some(h) { OneAddress(r, ref); }
    }
  }

  lemma Opens(c: Crypto, f: map<string, Blob>, ref: string, plain: Bytes, collection: string)
    requires HashOf(ref).Some? && c.sha(plain) == HashOf(ref).value
    ensures At(f, HashOf(ref).value) == Some(Sealed(c.key, ref, plain)) ==> Readable(c, f, ref, collection)
  {
  }

  lemma Absent(c: Crypto, f: map<string, Blob>, ref: string, collection: string)
    requires HashOf(ref).Some? && HashOf(ref).value !in f
    ensures ReadOf(c, f, ref, collection) == Miss
  {
  }

  lemma Promoted(c: Crypto, f: map<string, Blob>, o: map<string, RemoteBlob>, h: string, plain: Bytes)
    requires c.sha(plain) == h && HonestRemote(c, o)
    ensures Conserves(c, f, o, f, o[h := Cipher(plain)]) && HonestRemote(c, o[h := Cipher(plain)])
  {
    hide Decrypt;
  }

  class Remote {
    var objects: map<string, RemoteBlob>

    constructor ()
      ensures objects == map[]
    {
      objects := map[];
    }

    /** None is a backing that did not answer. */
    method Exists(ref: string) returns (r: Option<bool>)
      ensures r.Some? ==> r.value == (HashOf(ref).Some? && HashOf(ref).value in objects)
    {
      var answers: bool := *;
      r := if answers then Some(HashOf(ref).Some? && HashOf(ref).value in objects) else None;
    }

    method Get(ref: string, answers: bool) returns (r: Option<RemoteBlob>)
      ensures r == if answers && HashOf(ref).Some? && HashOf(ref).value in objects
          then Some(objects[HashOf(ref).value]) else None
    {
      r := if answers && HashOf(ref).Some? && HashOf(ref).value in objects then Some(objects[HashOf(ref).value])
          else None;
    }

    method Put(ref: string, blob: RemoteBlob) returns (stored: bool)
      requires HashOf(ref).Some?
      modifies this
      ensures objects == if stored then old(objects)[HashOf(ref).value := blob] else old(objects)
    {
      stored := *;
      if stored { objects := objects[HashOf(ref).value := blob]; }
    }
  }

  datatype PutOutcome = Written | Present | Refused | Unkeyed | NoAddress | WriteFailed

  class FileContentCache {
    const crypto: Crypto
    const durable: Remote?          // the durability oracle, wired from the remote tier
    var files: map<string, Blob>

    constructor (crypto: Crypto, durable: Remote?)
      ensures this.crypto == crypto && this.durable == durable && files == map[]
    {
      this.crypto, this.durable := crypto, durable;
      files := map[];
    }

    ghost function Objects(): map<string, RemoteBlob>
      reads durable
    {
      if durable == null then map[] else durable.objects
    }

    /** Plaintext or an error; corruption is evicted, an unopened blob is left in place. */
    method Get(ref: string, collection: string) returns (r: Outcome)
      modifies this
      ensures r == ReadOf(crypto, old(files), ref, collection)
      ensures r.Data? ==> HashOf(ref).Some? && crypto.sha(r.plain) == HashOf(ref).value
      ensures !r.Data? && !r.Corrupt? ==> files == old(files)
      ensures r.Data? ==>
          files == old(files) || files == old(files)[HashOf(ref).value := Sealed(crypto.key, ref, r.plain)]
      ensures r.Data? && files != old(files) ==>
                var blob := old(files)[HashOf(ref).value];
                blob.key != crypto.key && (crypto.legacy(collection) == Some(blob.key) || crypto.rekeyPrevious)
      ensures r.Data? ==> Readable(crypto, files, ref, collection)
      ensures r.Corrupt? ==> HashOf(ref).Some? && (files == old(files) || files == old(files) - {HashOf(ref).value})
      ensures forall o :: Conserves(crypto, old(files), o, files, o)
    {
      hide Conserves;
      forall o ensures Conserves(crypto, files, o, files, o) { ConservesRefl(crypto, files, o); }
      if HashOf(ref).None? { return BadRef; }
      var h := HashOf(ref).value;
      if h !in files { return Miss; }
      ghost var f0 := files;
      match Decrypt(crypto, files[h], ref, collection) {
        case Ambiguous => r := KeyMismatch;
        case Proven =>
          r := Corrupt;
          ghost var f1 := f0 - {h};
          forall o ensures Conserves(crypto, f0, o, f1, o) { DropCorrupt(crypto, f0, o, ref, collection); }
          Evict(h);
        case Plain(plain, rekey) =>
          if crypto.sha(plain) != h {
            ghost var f1 := f0 - {h};
            forall o ensures Conserves(crypto, f0, o, f1, o) { DropCorrupt(crypto, f0, o, ref, collection); }
            Evict(h);
            return Corrupt;
          }
          r := Data(plain);
          ghost var f1 := f0[h := Sealed(crypto.key, ref, plain)];
          forall o ensures Conserves(crypto, f0, o, f1, o) { Seal(crypto, f0, o, ref, plain, f1); }
          if rekey { var rewritten := AtomicWrite(h, Sealed(crypto.key, ref, plain)); }
      }
    }

    method Evict(h: string)
      modifies this
      ensures files == old(files) || files == old(files) - {h}
    {
      var unlinked: bool := *;
      if unlinked { files := files - {h}; }
    }

    /** Published whole or not at all. */
    method AtomicWrite(h: string, blob: Blob) returns (ok: bool)
      modifies this
      ensures files == if ok then old(files)[h := blob] else old(files)
    {
      ok := *;
      if ok { files := files[h := blob]; }
    }

    /** Make room: only an object the oracle confirms goes, and without an oracle none does. */
    method EnsureFree() returns (evicted: nat)
      modifies this
      ensures durable == null ==> files == old(files)
      ensures files.Keys <= old(files).Keys && forall h :: h in files ==> files[h] == old(files)[h]
      ensures |old(files).Keys - files.Keys| <= evicted <= |old(files)|
      ensures durable != null ==> forall h :: h in old(files) && h !in files ==> h in durable.objects
      ensures durable != null && HonestRemote(crypto, durable.objects) ==>
                Conserves(crypto, old(files), durable.objects, files, durable.objects)
    {
      hide Conserves;
      evicted := 0;
      var above: bool := *;
      if durable != null { ConservesRefl(crypto, files, durable.objects); }
      if above || durable == null { return; }
      var entries := files.Keys;
      while entries != {}
        invariant files.Keys <= old(files).Keys && forall h :: h in files ==> files[h] == old(files)[h]
        invariant entries <= old(files).Keys && |old(files).Keys - files.Keys| <= evicted <= |old(files)| - |entries|
        invariant forall h :: h in old(files) && h !in files ==> h in durable.objects
        invariant HonestRemote(crypto, durable.objects) ==>
          Conserves(crypto, old(files), durable.objects, files, durable.objects)
        decreases |entries|
      {
        var enough: bool := *;
        if enough { return; }
        var h :| h in entries;
        entries := entries - {h};
        var kept := durable.Exists(CAS_PREFIX + h);
        if kept == Some(true) {
          CasDigest(h);
          ghost var f1 := files;
          Evict(h);
          evicted := evicted + 1;
          if HonestRemote(crypto, durable.objects) {
            DropDurable(crypto, f1, durable.objects, h);
            ConservesRefl(crypto, f1, durable.objects);
            ConservesTrans(crypto, old(files), durable.objects, f1, durable.objects, files, durable.objects);
          }
        }
      }
    }

    /** Store under the address; present and verified is a no-op, a mismatch is never overwritten. */
    method Put(ref: string, plain: Bytes, collection: string) returns (r: PutOutcome)
      modifies this
      ensures r.Written? || r.Present? ==> Readable(crypto, files, ref, collection)
      ensures r.Refused? <==> HashOf(ref).Some? && crypto.sha(plain) != HashOf(ref).value
      ensures r.NoAddress? <==> HashOf(ref).None?
      ensures r.Unkeyed? <==> !r.NoAddress? && !r.Refused? && ReadOf(crypto, old(files), ref, collection).KeyMismatch?
      ensures r.Present? <==> !r.NoAddress? && !r.Refused? && Readable(crypto, old(files), ref, collection)
      ensures r.NoAddress? || r.Refused? || r.Unkeyed? ==> files == old(files)
      ensures r.Written? ==> At(files, HashOf(ref).value) == Some(Sealed(crypto.key, ref, plain))
      ensures r.Written? || r.WriteFailed? ==> forall h :: h in files && !(r.Written? && h == HashOf(ref).value) ==>
                h in old(files) && files[h] == old(files)[h]
      ensures durable == null && (r.Written? || r.WriteFailed?) ==> forall h ::
          h in old(files) && h != HashOf(ref).value ==>
                h in files
      ensures durable == null || HonestRemote(crypto, durable.objects) ==>
                Conserves(crypto, old(files), Objects(), files, Objects())
    {
      hide Conserves, HonestRemote, ReadOf, HashOf;
      ConservesRefl(crypto, files, Objects());
      if HashOf(ref).None? { return NoAddress; }
      var h := HashOf(ref).value;
      if crypto.sha(plain) != h { return Refused; }
      if h in files {
        var got := Get(ref, collection);
        if got.Data? { return Present; }
        if got.KeyMismatch? { return Unkeyed; }
      } else {
        Absent(crypto, files, ref, collection);
      }
      ghost var f1 := files;
      var ok := Publish(ref, plain);
      if durable == null || HonestRemote(crypto, durable.objects) {
        ConservesTrans(crypto, old(files), Objects(), f1, Objects(), files, Objects());
      }
      Opens(crypto, files, ref, plain, collection);
      r := if ok then Written else WriteFailed;
    }

    /** Make room when the disk is short of it, then write the sealed object. */
    method Publish(ref: string, plain: Bytes) returns (ok: bool)
      requires HashOf(ref).Some? && crypto.sha(plain) == HashOf(ref).value
      modifies this
      ensures ok ==> At(files, HashOf(ref).value) == Some(Sealed(crypto.key, ref, plain))
      ensures forall h :: h in files && !(ok && h == HashOf(ref).value) ==> h in old(files) && files[h] == old(files)[h]
      ensures durable == null ==> forall h :: h in old(files) ==> h in files
      ensures durable == null || HonestRemote(crypto, durable.objects) ==>
                Conserves(crypto, old(files), Objects(), files, Objects())
    {
      hide Conserves, HonestRemote, HashOf, ReadOf;
      var h := HashOf(ref).value;
      ConservesRefl(crypto, files, Objects());
      var short: bool := *;
      if short { var evicted := EnsureFree(); }
      ghost var f1 := files;
      Seal(crypto, f1, Objects(), ref, plain, f1[h := Sealed(crypto.key, ref, plain)]);
      ok := AtomicWrite(h, Sealed(crypto.key, ref, plain));
      if ok && (durable == null || HonestRemote(crypto, durable.objects)) {
        ConservesTrans(crypto, old(files), Objects(), f1, Objects(), files, Objects());
      }
    }
  }

  /** `n` files of `f0` are gone, each of them in the remote; the others are as they were. */
  ghost predicate Cleared(f0: map<string, Blob>, f1: map<string, Blob>, o: map<string, RemoteBlob>, n: nat) {
    (forall h :: h in f1 ==> h in f0 && f1[h] == f0[h]) && (forall h :: h in f0 && h !in f1 ==> h in o) &&
    n == |f0.Keys - f1.Keys|
  }

  lemma ClearedNone(f: map<string, Blob>, o: map<string, RemoteBlob>)
    ensures Cleared(f, f, o, 0)
  {
    assert f.Keys - f.Keys == {};
  }

  lemma ClearedMore(f0: map<string, Blob>, f1: map<string, Blob>, o: map<string, RemoteBlob>, n: nat, h: string)
    requires Cleared(f0, f1, o, n) && h in f1 && h in o
    ensures Cleared(f0, f1 - {h}, o, n + 1)
  {
    assert f0.Keys - (f1 - {h}).Keys == (f0.Keys - f1.Keys) + {h};
  }

  lemma EvictedOne(c: Crypto, f0: map<string, Blob>, f1: map<string, Blob>, f2: map<string, Blob>,
                   o: map<string, RemoteBlob>, n: nat, h: string)
    requires HonestRemote(c, o) && Conserves(c, f0, o, f1, o) && Cleared(f0, f1, o, n)
    requires h in f1 && h in o && (f2 == f1 || f2 == f1 - {h})
    ensures Conserves(c, f0, o, f2, o) && Cleared(f0, f2, o, if h in f2 then n else n + 1)
  {
    hide Conserves, Cleared;
    if h !in f2 {
      DropDurable(c, f1, o, h);
      ConservesTrans(c, f0, o, f1, o, f2, o);
      ClearedMore(f0, f1, o, n, h);
    }
  }

  datatype Promotion = Copied | Skipped | Failed

  class TieredContentStore {
    const crypto: Crypto
    const cache: FileContentCache?
    const remote: Remote?

    ghost predicate Valid()
      reads this, cache, remote
    {
      (cache != null || remote != null) &&
      (cache != null ==> cache.crypto == crypto && cache.durable == remote) &&
      HonestRemote(crypto, Objects())
    }

    ghost function Files(): map<string, Blob>
      reads cache
    {
      if cache == null then map[] else cache.files
    }

    ghost function Objects(): map<string, RemoteBlob>
      reads remote
    {
      if remote == null then map[] else remote.objects
    }

    ghost function Tiers(): set<object> {
      (if cache != null then {cache} else {}) + (if remote != null then {remote} else {})
    }

    /** At least one tier is required; the cache's oracle is wired from the remote. */
    constructor (crypto: Crypto, local: bool, far: bool)
      requires local || far
      ensures Valid() && fresh(Tiers()) && Files() == map[] && Objects() == map[]
    {
      var r: Remote? := null;
      if far { r := new Remote(); }
      var c: FileContentCache? := null;
      if local { c := new FileContentCache(crypto, r); }
      this.crypto, this.cache, this.remote := crypto, c, r;
    }

    /** Local first; the remote is asked on a local miss or error, and its plaintext is re-cached. */
    method Get(ref: string, collection: string, answers: bool) returns (r: Outcome)
      requires Valid()
      modifies cache
      ensures Valid()
      ensures r.Data? ==> HashOf(ref).Some? && crypto.sha(r.plain) == HashOf(ref).value
      ensures answers && Held(crypto, old(Files()), Objects(), ref, collection) ==> r.Data?
      ensures !r.Data? ==>
          var local := if cache == null then Miss else ReadOf(crypto, old(Files()), ref, collection);
          r == if local.Miss? && remote != null then RemoteMiss else local
      ensures Readable(crypto, old(Files()), ref, collection) ==> r == ReadOf(crypto, old(Files()), ref, collection)
      ensures Conserves(crypto, old(Files()), old(Objects()), Files(), Objects())
    {
      hide Conserves;
      ConservesRefl(crypto, Files(), Objects());
      var local := Miss;
      if cache != null {
        local := cache.Get(ref, collection);
        if local.Data? || local.BadRef? { return local; }
      }
      if remote == null { return local; }
      var got := remote.Get(ref, answers);
      if got.None? { return if local.Miss? then RemoteMiss else local; }
      if got.value.Foreign? || crypto.sha(got.value.plain) != HashOf(ref).value { return RemoteCorrupt; }
      r := Data(got.value.plain);
      if cache != null {
        ghost var f1 := cache.files;
        var stored := cache.Put(ref, got.value.plain, collection);
        ConservesTrans(crypto, old(Files()), Objects(), f1, Objects(), Files(), Objects());
      }
    }

    /** Store locally, or straight into the remote when there is no cache; true says it is held. */
    method Put(ref: string, plain: Bytes, collection: string) returns (ok: bool)
      requires Valid()
      modifies Tiers()
      ensures Valid()
      ensures ok ==> Held(crypto, Files(), Objects(), ref, collection)
      ensures ok ==> HashOf(ref).Some? && crypto.sha(plain) == HashOf(ref).value
      ensures Readable(crypto, old(Files()), ref, collection) && crypto.sha(plain) == HashOf(ref).value ==> ok
      ensures Objects() == old(Objects()) ||
              (ok && cache == null && HashOf(ref).value !in old(Objects()) &&
               Objects() == old(Objects())[HashOf(ref).value := Cipher(plain)])
      ensures Conserves(crypto, old(Files()), old(Objects()), Files(), Objects())
    {
      hide Conserves;
      ConservesRefl(crypto, Files(), Objects());
      if cache != null {
        var stored := cache.Put(ref, plain, collection);
        return stored.Written? || stored.Present?;
      }
      if HashOf(ref).None? || crypto.sha(plain) != HashOf(ref).value { return false; }
      var there := remote.Exists(ref);
      if there.None? { return false; }
      if there.value { return true; }
      Promoted(crypto, Files(), remote.objects, HashOf(ref).value, plain);
      ok := remote.Put(ref, Cipher(plain));
    }

    /** Copy one local object up, after a verified read; never over an object already there. */
    method PromoteOne(ref: string, collection: string) returns (r: Promotion)
      requires Valid() && cache != null && remote != null
      modifies cache, remote
      ensures Valid()
      ensures r.Copied? || r.Skipped? ==> HashOf(ref).Some? && Genuine(crypto, Objects(), HashOf(ref).value)
      ensures r.Skipped? ==> HashOf(ref).value in old(Objects())
      ensures r.Copied? ==>
          HashOf(ref).value !in old(Objects()) && Readable(crypto, old(Files()), ref, collection) &&
          Objects() == old(Objects())[HashOf(ref).value := Cipher(ReadOf(crypto, old(Files()), ref, collection).plain)]
      ensures !r.Copied? ==> Objects() == old(Objects())
      ensures Conserves(crypto, old(Files()), old(Objects()), Files(), Objects())
    {
      hide Conserves;
      ConservesRefl(crypto, Files(), Objects());
      var there := remote.Exists(ref);
      if there.None? { return Failed; }
      if there.value { return Skipped; }
      var got := cache.Get(ref, collection);
      if !got.Data? { return Failed; }
      ghost var f1 := cache.files;
      Promoted(crypto, f1, remote.objects, HashOf(ref).value, got.plain);
      ConservesTrans(crypto, old(Files()), remote.objects, f1, remote.objects, f1,
          remote.objects[HashOf(ref).value := Cipher(got.plain)]);
      var stored := remote.Put(ref, Cipher(got.plain));
      r := if stored then Copied else Failed;
    }

    /** Delete the local copy, only after the object is confirmed in the remote. */
    method EvictLocal(ref: string) returns (gone: bool)
      requires Valid()
      modifies cache
      ensures Valid()
      ensures gone ==> HashOf(ref).Some? && Genuine(crypto, Objects(), HashOf(ref).value)
      ensures if gone then HashOf(ref).value in old(Files()) && Files() == old(Files()) - {HashOf(ref).value}
              else Files() == old(Files())
      ensures Conserves(crypto, old(Files()), old(Objects()), Files(), Objects())
    {
      hide Conserves;
      ConservesRefl(crypto, Files(), Objects());
      if cache == null || remote == null { return false; }
      var there := remote.Exists(ref);
      if there != Some(true) { return false; }
      var h := HashOf(ref).value;
      if h !in cache.files { return false; }
      ghost var f0 := cache.files;
      DropDurable(crypto, f0, remote.objects, h);
      cache.Evict(h);
      gone := h !in cache.files;
    }

    /** Evict confirmed objects in walk order, a bounded number of them; an error is an object that could
        not be confirmed or not be deleted, and stays. */
    method EvictForSpace(limit: int) returns (evicted: nat, errors: nat, ghost unmoved: set<string>)
      requires Valid()
      modifies cache
      ensures Valid()
      ensures evicted + errors <= if limit > 0 then limit else 0
      ensures Cleared(old(Files()), Files(), Objects(), evicted)
      ensures errors == |unmoved| && unmoved <= Files().Keys
      ensures Conserves(crypto, old(Files()), old(Objects()), Files(), Objects())
    {
      hide Conserves, Cleared, HashOf, HonestRemote;
      ConservesRefl(crypto, Files(), Objects());
      evicted, errors, unmoved := 0, 0, {};
      ClearedNone(Files(), Objects());
      var roomy: bool := *;
      if cache == null || remote == null || roomy { return; }
      var names := cache.files.Keys;
      while names != {}
        invariant Valid() && Objects() == old(Objects())
        invariant evicted + errors <= if limit > 0 then limit else 0
        invariant names <= cache.files.Keys && unmoved <= cache.files.Keys - names && errors == |unmoved|
        invariant Cleared(old(Files()), Files(), Objects(), evicted)
        invariant Conserves(crypto, old(Files()), old(Objects()), Files(), Objects())
        decreases |names|
      {
        if evicted + errors >= limit { return; }
        var fn :| fn in names;
        names := names - {fn};
        var there := remote.Exists(CAS_PREFIX + fn);
        if there.None? { errors, unmoved := errors + 1, unmoved + {fn}; continue; }
        if there.value {
          CasDigest(fn);
          ghost var f1 := cache.files;
          cache.Evict(fn);
          EvictedOne(crypto, old(Files()), f1, cache.files, remote.objects, evicted, fn);
          if fn !in cache.files { evicted := evicted + 1; } else { errors, unmoved := errors + 1, unmoved + {fn}; }
          if evicted % 128 == 0 {
            var enough: bool := *;
            if enough { return; }
          }
        }
      }
    }
  }

  datatype ContentOp =
    | Read(ref: string, collection: string, answers: bool)
    | Write(ref: string, plain: Bytes, collection: string)
    | Promote(ref: string, collection: string)
    | Evict(ref: string)
    | MakeRoom(limit: int)

  /** Any run of the tiers: what was held before it is held after it, and what was stored in it is
      readable at its end whenever the remote answers. */
  method Run(st: TieredContentStore, ops: seq<ContentOp>)
    requires st.Valid()
    modifies st.Tiers()
    ensures st.Valid()
    ensures Conserves(st.crypto, old(st.Files()), old(st.Objects()), st.Files(), st.Objects())
  {
    hide Conserves, HonestRemote;
    ConservesRefl(st.crypto, st.Files(), st.Objects());
    for i := 0 to |ops|
      invariant st.Valid()
      invariant Conserves(st.crypto, old(st.Files()), old(st.Objects()), st.Files(), st.Objects())
    {
      ghost var f1, o1 := st.Files(), st.Objects();
      Perform(st, ops[i]);
      ConservesTrans(st.crypto, old(st.Files()), old(st.Objects()), f1, o1, st.Files(), st.Objects());
    }
  }

  method Perform(st: TieredContentStore, op: ContentOp)
    requires st.Valid()
    modifies st.Tiers()
    ensures st.Valid()
    ensures Conserves(st.crypto, old(st.Files()), old(st.Objects()), st.Files(), st.Objects())
  {
    hide Conserves, HonestRemote, Held;
    match op {
      case Read(ref, collection, answers) => var r := st.Get(ref, collection, answers);
      case Write(ref, plain, collection) => var ok := st.Put(ref, plain, collection);
      case Promote(ref, collection) =>
        ConservesRefl(st.crypto, st.Files(), st.Objects());
        if st.cache != null && st.remote != null { var r := st.PromoteOne(ref, collection); }
      case Evict(ref) => var gone := st.EvictLocal(ref);
      case MakeRoom(limit) => var n, errors, unmoved := st.EvictForSpace(limit);
    }
  }

  /** Store, then run anything, then read: bytes of the same digest come back, and so the same bytes
      when no others share it. */
  method StoreRunRead(st: TieredContentStore, ref: string, plain: Bytes, collection: string, ops: seq<ContentOp>)
    returns (ok: bool, back: Outcome)
    requires st.Valid()
    modifies st.Tiers()
    ensures st.Valid()
    ensures ok ==> back.Data? && HashOf(ref).Some? && st.crypto.sha(back.plain) == st.crypto.sha(plain)
    ensures ok && (forall other :: st.crypto.sha(other) == st.crypto.sha(plain) ==> other == plain) ==>
        back == Data(plain)
  {
    hide HonestRemote, Held;
    ok := st.Put(ref, plain, collection);
    Run(st, ops);
    back := st.Get(ref, collection, true);
  }

  lemma CasDigest(h: string)
    ensures HashOf(CAS_PREFIX + h).Some? ==> HashOf(CAS_PREFIX + h).value == h
  {
    assert (CAS_PREFIX + h)[4..] == h;
  }
}
