/** The volume managers: a table of volumes in memory and an encrypted copy of it in a file. */
module VolumeStore {
  import opened Trees

  type Bytes = seq<bv8>

  const KEY_SIZE: nat := 32
  const NONCE_SIZE: nat := 12

  /** JSON and AES-GCM, as functions: what they are assumed to do is Lawful. */
  datatype Codec<!V> = Codec(
    marshal: map<string, V> -> Bytes,
    isJson: Bytes -> bool,
    unmarshal: Bytes -> Option<map<string, V>>,
    seal: (Bytes, Bytes, Bytes) -> Bytes,
    unseal: (Bytes, Bytes, Bytes) -> Option<Bytes>)

  /** Unmarshal undoes Marshal and Open undoes Seal under the same key and nonce. */
  ghost predicate Lawful<V(!new)>(c: Codec<V>) {
    && (forall m: map<string, V> :: c.marshal(m) != [] && c.isJson(c.marshal(m)) && c.unmarshal(c.marshal(m)) == Some(m))
    && (forall k: Bytes, n: Bytes, p: Bytes :: c.unseal(k, n, c.seal(k, n, p)) == Some(p))
  }

  // ---------- encryption ----------

  function KeyByte(key: Bytes, i: nat): bv8 {
    if i < |key| then key[i] else 0
  }

  /** A key cut or padded with zeros to the length AES-256 takes. */
  function AesKey(key: Bytes): Bytes {
    seq(KEY_SIZE, i requires 0 <= i < KEY_SIZE => KeyByte(key, i))
  }

  predicate IsZero(b: Bytes) {
    forall i | 0 <= i < |b| :: b[i] == 0
  }

  /** A short key comes first and zeros follow it; of a long one the first 32 bytes are used. */
  lemma {:induction false} AesKeyIs(key: Bytes)
    ensures |AesKey(key)| == 32
    ensures if |key| <= 32 then key <= AesKey(key) && IsZero(AesKey(key)[|key|..]) else AesKey(key) == key[..32]
  {
    assert |key| <= 32 ==> AesKey(key)[..|key|] == key;
    assert forall i | 0 <= i < KEY_SIZE - |key| :: AesKey(key)[|key|..][i] == AesKey(key)[|key| + i];
  }

  method GetEncryptionKey(key: Bytes) returns (aesKey: array<bv8>)
    ensures fresh(aesKey) && aesKey[..] == AesKey(key)
    ensures aesKey.Length == 32 && if |key| <= 32 then key <= aesKey[..] && IsZero(aesKey[|key|..]) else aesKey[..] == key[..32]
  {
    aesKey := new bv8[KEY_SIZE](_ => 0);
    var i := 0;
    while i < |key| && i < KEY_SIZE
      invariant 0 <= i <= KEY_SIZE && i <= |key|
      invariant forall k | 0 <= k < i :: aesKey[k] == key[k]
      invariant forall k | i <= k < KEY_SIZE :: aesKey[k] == 0
    {
      aesKey[i] := key[i];
      i := i + 1;
    }
    assert aesKey[..] == AesKey(key);
    AesKeyIs(key);
  }

  /** data is p encrypted with key, under some nonce that is put in front. */
  ghost predicate IsEncrypted<V>(c: Codec<V>, data: Bytes, p: Bytes, key: Bytes) {
    exists nonce: Bytes :: |nonce| == NONCE_SIZE && data == nonce + c.seal(AesKey(key), nonce, p)
  }

  method Encrypt<V>(c: Codec<V>, p: Bytes, key: Bytes) returns (data: Bytes)
    ensures IsEncrypted(c, data, p, key)
  {
    var aesKey := GetEncryptionKey(key);
    var nonce := new bv8[NONCE_SIZE];
    data := nonce[..] + c.seal(aesKey[..], nonce[..], p);
  }

  /** Cutting off the nonce panics when the data is shorter than one. */
  datatype Decrypted = Plain(bytes: Bytes) | WrongKey | Panics

  function Decrypt<V>(c: Codec<V>, data: Bytes, key: Bytes): Decrypted {
    if |data| < NONCE_SIZE then Panics
    else
      match c.unseal(AesKey(key), data[..NONCE_SIZE], data[NONCE_SIZE..])
      case Some(p) => Plain(p)
      case None => WrongKey
  }

  /** What encrypt writes is long enough to be split again, and decrypts to what went in. */
  lemma {:induction false} DecryptEncrypted<V(!new)>(c: Codec<V>, data: Bytes, p: Bytes, key: Bytes)
    requires Lawful(c) && IsEncrypted(c, data, p, key)
    ensures |data| >= NONCE_SIZE && Decrypt(c, data, key) == Plain(p)
  {
    var nonce: Bytes :| |nonce| == NONCE_SIZE && data == nonce + c.seal(AesKey(key), nonce, p);
    assert data[..NONCE_SIZE] == nonce && data[NONCE_SIZE..] == c.seal(AesKey(key), nonce, p);
  }

  /** The first 32 bytes agree, a missing byte counting as zero. */
  predicate KeysAgree(a: Bytes, b: Bytes) {
    && (forall i | 0 <= i < 32 && i < |a| && i < |b| :: a[i] == b[i])
    && (forall i | |b| <= i < 32 && i < |a| :: a[i] == 0)
    && (forall i | |a| <= i < 32 && i < |b| :: b[i] == 0)
  }

  lemma {:induction false} SameAesKeyIff(a: Bytes, b: Bytes)
    ensures AesKey(a) == AesKey(b) <==> KeysAgree(a, b)
  {
    forall i | 0 <= i < 32
      ensures AesKey(a)[i] == (if i < |a| then a[i] else 0) && AesKey(b)[i] == (if i < |b| then b[i] else 0)
    {
    }
    assert AesKey(a) == AesKey(b) <==> forall i | 0 <= i < 32 :: AesKey(a)[i] == AesKey(b)[i];
  }

  /** The cipher gets the same key exactly from keys that agree, and then either key reads what was
      encrypted with the other. */
  lemma {:induction false} SameAesKey<V(!new)>(c: Codec<V>, a: Bytes, b: Bytes, data: Bytes, p: Bytes)
    ensures AesKey(a) == AesKey(b) <==> KeysAgree(a, b)
    ensures KeysAgree(a, b) ==> (IsEncrypted(c, data, p, a) <==> IsEncrypted(c, data, p, b)) && Decrypt(c, data, a) == Decrypt(c, data, b)
    ensures Lawful(c) && KeysAgree(a, b) && IsEncrypted(c, data, p, a) ==> Decrypt(c, data, b) == Plain(p)
  {
    SameAesKeyIff(a, b);
    if Lawful(c) && IsEncrypted(c, data, p, a) {
      DecryptEncrypted(c, data, p, a);
    }
  }

  // ---------- saving and loading ----------

  /** The file holds the table m. */
  ghost predicate Saved<V>(c: Codec<V>, key: Bytes, file: Option<Bytes>, m: map<string, V>) {
    file.Some? && if key == [] then file.value == c.marshal(m) else IsEncrypted(c, file.value, c.marshal(m), key)
  }

  /** How load ends, and the table it leaves. */
  datatype Loaded<V> = Returned(isError: bool, volumes: map<string, V>) | Crashed

  function Parse<V>(c: Codec<V>, data: Bytes, errorAfter: bool): Loaded<V> {
    if data == [] then Returned(false, map[])
    else if !c.isJson(data) then Returned(true, map[])
    else
      match c.unmarshal(data)
      case Some(m) => Returned(errorAfter, m)
      case None => Returned(true, map[])
  }

  /** Without a key, load fills the table and then returns an error all the same. */
  function Load<V>(c: Codec<V>, key: Bytes, file: Option<Bytes>): Loaded<V> {
    if file.None? then Returned(false, map[])
    else if key == [] then Parse(c, file.value, true)
    else
      match Decrypt(c, file.value, key)
      case Plain(p) => Parse(c, p, false)
      case WrongKey => Returned(true, map[])
      case Panics => Crashed
  }

  class SaveFile {
    var content: Option<Bytes>

    constructor ()
      ensures content == None
    {
      content := None;
    }
  }

  /** NodeVolumeManager and ControllerVolumeManager. */
  class VolumeManager<V(!new)> {
    const codec: Codec<V>
    const encryptKey: Bytes
    const file: SaveFile
    var volumes: map<string, V>

    /** Starts from the file; a load that returns an error is ignored. */
    constructor (codec: Codec<V>, encryptKey: Bytes, file: SaveFile)
      requires Load(codec, encryptKey, file.content).Returned?
      ensures this.codec == codec && this.encryptKey == encryptKey && this.file == file
      ensures volumes == Load(codec, encryptKey, file.content).volumes
      ensures forall m: map<string, V> :: Next(codec, encryptKey, Store(m, file.content), RestartOp, Store(volumes, file.content))
    {
      this.codec, this.encryptKey, this.file := codec, encryptKey, file;
      volumes := Load(codec, encryptKey, file.content).volumes;
    }

    /** A write that fails may leave anything in the file. */
    method Save() returns (ok: bool)
      modifies file
      ensures ok ==> Saved(codec, encryptKey, file.content, volumes)
    {
      var data := codec.marshal(volumes);
      if encryptKey != [] {
        data := Encrypt(codec, data, encryptKey);
      }
      var fault := *;
      if fault {
        var part: Bytes := *;
        file.content := Some(part);
        return false;
      }
      file.content := Some(data);
      return true;
    }

    method Get(id: string) returns (v: Option<V>)
      ensures v == Trees.Get(volumes, id)
    {
      v := if id in volumes then Some(volumes[id]) else None;
    }

    method Check(id: string) returns (present: bool)
      ensures present <==> id in volumes
    {
      present := id in volumes;
    }

    /** The table in memory changes also when saving it fails. */
    method Put(id: string, v: V) returns (ok: bool)
      modifies this, file
      ensures volumes == old(volumes)[id := v]
      ensures ok ==> Saved(codec, encryptKey, file.content, volumes)
      ensures ok ==> Next(codec, encryptKey, old(Store(volumes, file.content)), PutOp(id, v), Store(volumes, file.content))
    {
      volumes := volumes[id := v];
      ok := Save();
    }

    method Pop(id: string) returns (v: Option<V>, ok: bool)
      modifies this, file
      ensures v == Trees.Get(old(volumes), id) && volumes == old(volumes) - {id}
      ensures v.None? ==> ok && file.content == old(file.content)
      ensures v.Some? && ok ==> Saved(codec, encryptKey, file.content, volumes)
      ensures ok ==> Next(codec, encryptKey, old(Store(volumes, file.content)), PopOp(id), Store(volumes, file.content))
    {
      if id in volumes {
        v := Some(volumes[id]);
        volumes := volumes - {id};
        ok := Save();
      } else {
        v, ok := None, true;
      }
    }
  }

  // ---------- runs ----------

  datatype Op<V> = PutOp(id: string, v: V) | PopOp(id: string) | RestartOp

  datatype Store<V> = Store(volumes: map<string, V>, file: Option<Bytes>)

  /** One operation whose save succeeds, or a restart. */
  ghost predicate Next<V(!new)>(c: Codec<V>, key: Bytes, s: Store<V>, op: Op<V>, s': Store<V>) {
    match op
    case PutOp(id, v) => s'.volumes == s.volumes[id := v] && Saved(c, key, s'.file, s'.volumes)
    case PopOp(id) => s'.volumes == s.volumes - {id} && if id in s.volumes then Saved(c, key, s'.file, s'.volumes) else s'.file == s.file
    case RestartOp => s'.file == s.file && Load(c, key, s.file).Returned? && s'.volumes == Load(c, key, s.file).volumes
  }

  ghost predicate StoreRun<V(!new)>(c: Codec<V>, key: Bytes, s: Store<V>, ops: seq<Op<V>>, s': Store<V>)
    decreases |ops|
  {
    if ops == [] then s == s'
    else exists mid :: Next(c, key, s, ops[0], mid) && StoreRun(c, key, mid, ops[1..], s')
  }

  /** The same operations on a plain map, which a restart does not touch. */
  function PlainMap<V>(m: map<string, V>, ops: seq<Op<V>>): map<string, V>
    decreases |ops|
  {
    if ops == [] then m
    else
      var m' := match ops[0] case PutOp(id, v) => m[id := v] case PopOp(id) => m - {id} case RestartOp => m;
      PlainMap(m', ops[1..])
  }

  /** A restart would find the table again. */
  ghost predicate Recoverable<V>(c: Codec<V>, key: Bytes, s: Store<V>) {
    Load(c, key, s.file).Returned? && Load(c, key, s.file).volumes == s.volumes
  }

  /** What save wrote, load reads back, with and without encryption; without it, as an error. */
  lemma {:induction false} LoadSaved<V(!new)>(c: Codec<V>, key: Bytes, file: Option<Bytes>, m: map<string, V>)
    requires Lawful(c) && Saved(c, key, file, m)
    ensures Load(c, key, file) == Returned(key == [], m)
  {
    if key != [] {
      DecryptEncrypted(c, file.value, c.marshal(m), key);
    }
  }

  /** With a key the file holds a nonce of 12 bytes and the sealed table, which the padded or cut key
      opens; without one it holds the table as it is. */
  lemma {:induction false} SavedIs<V(!new)>(c: Codec<V>, key: Bytes, file: Bytes, m: map<string, V>, aesKey: Bytes)
    requires Lawful(c) && Saved(c, key, Some(file), m)
    requires |aesKey| == 32 && if |key| <= 32 then key <= aesKey && IsZero(aesKey[|key|..]) else aesKey == key[..32]
    ensures key == [] ==> c.unmarshal(file) == Some(m)
    ensures key != [] ==>
              |file| >= 12 && file[12..] == c.seal(aesKey, file[..12], c.marshal(m))
              && c.unseal(aesKey, file[..12], file[12..]) == Some(c.marshal(m))
  {
    if key != [] {
      OneAesKey(key, aesKey);
      var nonce: Bytes :| |nonce| == NONCE_SIZE && file == nonce + c.seal(AesKey(key), nonce, c.marshal(m));
      assert file[..12] == nonce && file[12..] == c.seal(AesKey(key), nonce, c.marshal(m));
    }
  }

  lemma {:induction false} OneAesKey(key: Bytes, aesKey: Bytes)
    requires |aesKey| == 32 && if |key| <= 32 then key <= aesKey && IsZero(aesKey[|key|..]) else aesKey == key[..32]
    ensures aesKey == AesKey(key)
  {
    AesKeyIs(key);
    if |key| <= 32 {
      assert aesKey == key + aesKey[|key|..] && AesKey(key) == key + AesKey(key)[|key|..];
      assert aesKey[|key|..] == AesKey(key)[|key|..];
    }
  }

  /** Open fails under another key than the one that sealed. */
  ghost predicate Authenticated<V>(c: Codec<V>) {
    forall k: Bytes, k': Bytes, n: Bytes, p: Bytes :: k != k' ==> c.unseal(k', n, c.seal(k, n, p)) == None
  }

  /** If Open fails under a wrong key, a manager started with a key that does not agree with the one in
      use finds nothing, and load says so. */
  lemma {:induction false} WrongKeyFindsNothing<V(!new)>(c: Codec<V>, key: Bytes, file: Option<Bytes>, m: map<string, V>, wrong: Bytes)
    requires Authenticated(c) && key != [] && wrong != [] && Saved(c, key, file, m) && !KeysAgree(key, wrong)
    ensures Load(c, wrong, file) == Returned(true, map[])
  {
    SameAesKeyIff(key, wrong);
    var nonce: Bytes :| |nonce| == NONCE_SIZE && file.value == nonce + c.seal(AesKey(key), nonce, c.marshal(m));
    assert file.value[..NONCE_SIZE] == nonce && file.value[NONCE_SIZE..] == c.seal(AesKey(key), nonce, c.marshal(m));
  }

  lemma {:induction false} RunRefinesMap<V(!new)>(c: Codec<V>, key: Bytes, s: Store<V>, ops: seq<Op<V>>, s': Store<V>)
    requires Lawful(c) && Recoverable(c, key, s) && StoreRun(c, key, s, ops, s')
    ensures s'.volumes == PlainMap(s.volumes, ops) && Recoverable(c, key, s')
    decreases |ops|
  {
    if ops != [] {
      var mid :| Next(c, key, s, ops[0], mid) && StoreRun(c, key, mid, ops[1..], s');
      if Saved(c, key, mid.file, mid.volumes) {
        LoadSaved(c, key, mid.file, mid.volumes);
      } else if ops[0].PopOp? {
        assert mid.volumes == s.volumes;
      }
      RunRefinesMap(c, key, mid, ops[1..], s');
    }
  }

  /** From a fresh start, over any operations and restarts whose saves succeed, a manager is a plain
      map, and no restart loses or invents a volume or crashes. */
  lemma {:induction false} ManagerIsPlainMap<V(!new)>(c: Codec<V>, key: Bytes, ops: seq<Op<V>>, s: Store<V>)
    requires Lawful(c) && StoreRun(c, key, Store(map[], None), ops, s)
    ensures s.volumes == PlainMap(map[], ops) && Recoverable(c, key, s)
  {
    RunRefinesMap(c, key, Store(map[], None), ops, s);
  }

  /** The text that load finds in the file. */
  ghost predicate Contains<V>(c: Codec<V>, key: Bytes, file: Bytes, text: Bytes) {
    if key == [] then text == file else |file| >= 12 && c.unseal(AesKey(key), file[..12], file[12..]) == Some(text)
  }

  /** Load finds no volumes but those in the text of the file, and where it reports no error there was no
      text or it was read. */
  lemma {:induction false} LoadInventsNothing<V>(c: Codec<V>, key: Bytes, file: Option<Bytes>)
    requires Load(c, key, file).Returned?
    ensures var r := Load(c, key, file);
            && (r.volumes != map[] ==>
                  file.Some? && exists text: Bytes :: Contains(c, key, file.value, text) && c.isJson(text) && c.unmarshal(text) == Some(r.volumes))
            && (!r.isError && file.Some? ==>
                  exists text: Bytes :: Contains(c, key, file.value, text) &&
                                        if text == [] then r.volumes == map[] else c.isJson(text) && c.unmarshal(text) == Some(r.volumes))
  {
    if file.Some? {
      if key == [] {
        assert Contains(c, key, file.value, file.value);
      } else if c.unseal(AesKey(key), file.value[..12], file.value[12..]).Some? {
        assert Contains(c, key, file.value, c.unseal(AesKey(key), file.value[..12], file.value[12..]).value);
      }
    }
  }

  /** A restart crashes exactly on an encrypted file shorter than a nonce. */
  lemma {:induction false} CrashesOnShortFile<V>(c: Codec<V>, key: Bytes, file: Option<Bytes>)
    ensures Load(c, key, file) == Crashed <==> key != [] && file.Some? && |file.value| < 12
  {
    if file.Some? && key != [] {
      match Decrypt(c, file.value, key) {
        case Plain(p) =>
        case _ =>
      }
    }
  }
}
