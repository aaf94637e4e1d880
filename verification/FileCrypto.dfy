/**
 The file envelope (core/file_crypto.py). Fernet and AES-GCM (the AEAD of
 section 2 of RFC 5116) are functions known only by the laws stated here.
 */
module FileCrypto {
  import opened Common

  type Byte = b: int | 0 <= b < 256
  type Bytes = seq<Byte>

  /** `salt` stands for the randomness of one Fernet encryption. */
  datatype Crypto = Crypto(
    wrap: (Bytes, Bytes, nat) -> Bytes, unwrap: (Bytes, Bytes) -> Option<Bytes>,
    encrypt: (Bytes, Bytes, Bytes) -> Bytes, decrypt: (Bytes, Bytes, Bytes) -> Option<Bytes>)

  const KEY_LENGTH := 32
  const NONCE_LENGTH := 12
  const LENGTH_LIMIT := 65536

  /** A file key and a nonce as they are generated. */
  type Dek = k: Bytes | |k| == KEY_LENGTH witness seq(KEY_LENGTH, _ => 0)
  type Nonce = n: Bytes | |n| == NONCE_LENGTH witness seq(NONCE_LENGTH, _ => 0)

  predicate KeyFits(dek: Bytes) {
    |dek| == 16 || |dek| == 24 || |dek| == 32
  }

  predicate NonceFits(nonce: Bytes) {
    8 <= |nonce| <= 128
  }

  /**
   Decryption inverts encryption, the plaintext is no longer than the ciphertext, and a wrapped key's
   length fits its field.
   */
  ghost predicate Lawful(c: Crypto) {
    && (forall kek, dek, salt :: c.unwrap(kek, c.wrap(kek, dek, salt)) == Some(dek))
    && (forall kek, dek: Dek, salt :: |c.wrap(kek, dek, salt)| < LENGTH_LIMIT)
    && (forall dek, nonce, plain :: c.decrypt(dek, nonce, c.encrypt(dek, nonce, plain)) == Some(plain))
    && (forall dek, nonce, cipher :: c.decrypt(dek, nonce, cipher).Some? ==>
      |c.decrypt(dek, nonce, cipher).value| <= |cipher|)
  }

  /** `Failed` is the module's own error; the other errors are passed through. */
  datatype Outcome = Done(bytes: Bytes) | Failed | LengthError | ValueError | KeyMalformed

  const MAGIC: Bytes := [0x50, 0x45, 0x4e, 0x43, 0x31]
  const VERSION: Byte := 1

  predicate HasMagic(data: Bytes) {
    MAGIC <= data
  }

  function AtMost(i: nat, limit: nat): (r: nat)
    ensures r <= limit
  {
    if i < limit then i else limit
  }

  /** Python's slicing: bounds beyond the end stop there. */
  function Slice(data: Bytes, low: nat, high: nat): Bytes {
    data[AtMost(low, |data|)..AtMost(if high < low then low else high, |data|)]
  }

  function Length(n: nat): Bytes
    requires n < LENGTH_LIMIT
  {
    [n / 256, n % 256]
  }

  function Envelope(wrapped: Bytes, nonce: Bytes, cipher: Bytes): Bytes
    requires |wrapped| < LENGTH_LIMIT
  {
    MAGIC + [VERSION] + Length(|wrapped|) + wrapped + nonce + cipher
  }

  function ReadLength(field: Bytes): nat
    requires |field| == 2
  {
    field[0] as nat * 256 + field[1] as nat
  }

  datatype Parts = Parts(wrapped: Bytes, nonce: Bytes, cipher: Bytes)

  /** The parts of an envelope; none when it ends before the length does. */
  function Open(data: Bytes): Option<Parts> {
    var field := Slice(data, 6, 8);
    if |field| != 2 then None else
    var start := 8 + ReadLength(field);
    var rest := start + NONCE_LENGTH;
    Some(Parts(Slice(data, 8, start), Slice(data, start, rest), Slice(data, rest, |data|)))
  }

  /** The environment's key, and the one loaded before. */
  datatype Env = Unset | Malformed | Set(key: Bytes)

  datatype Kek = NoKey | BadKey | Key(key: Bytes)

  function LoadKek(loaded: Option<Bytes>, env: Env): Kek {
    if loaded.Some? then Key(loaded.value) else
    match env
    case Unset => NoKey
    case Malformed => BadKey
    case Set(key) => Key(key)
  }

  function Seal(c: Crypto, kek: Kek, plain: Bytes, dek: Dek, nonce: Nonce, salt: nat): Outcome {
    match kek
    case NoKey => Failed
    case BadKey => KeyMalformed
    case Key(key) =>
      var wrapped := c.wrap(key, dek, salt);
      if |wrapped| < LENGTH_LIMIT then Done(Envelope(wrapped, nonce, c.encrypt(dek, nonce, plain))) else LengthError
  }

  function Unseal(c: Crypto, kek: Kek, data: Bytes): Outcome {
    if !HasMagic(data) then Done(data) else
    match Open(data)
    case None => Failed
    case Some(Parts(wrapped, nonce, cipher)) =>
      match kek
      case NoKey => Failed
      case BadKey => KeyMalformed
      case Key(key) =>
        var dek := c.unwrap(key, wrapped);
        if dek.None? then Failed
        else if !KeyFits(dek.value) || !NonceFits(nonce) then ValueError
        else match c.decrypt(dek.value, nonce, cipher)
          case None => Failed
          case Some(plain) => Done(plain)
  }

  class FileCryptoModule {
    const c: Crypto
    var loaded: Option<Bytes>
    var env: Env

    constructor (crypto: Crypto, environment: Env)
      ensures c == crypto && env == environment && loaded == None
    {
      c, env, loaded := crypto, environment, None;
    }

    method GetKek() returns (kek: Kek)
      modifies this`loaded
      ensures kek == LoadKek(old(loaded), env)
      ensures LoadKek(loaded, env) == kek && (loaded == if kek.Key? then Some(kek.key) else None)
    {
      if loaded.None? && env.Set? {
        loaded := Some(env.key);
      }
      kek := if loaded.Some? then Key(loaded.value) else if env.Malformed? then BadKey else NoKey;
    }

    method SealFile(plain: Bytes, dek: Dek, nonce: Nonce, salt: nat) returns (sealed: Outcome)
      modifies this`loaded
      ensures sealed == Seal(c, LoadKek(old(loaded), env), plain, dek, nonce, salt)
      ensures LoadKek(loaded, env) == LoadKek(old(loaded), env)
    {
      var cipher := c.encrypt(dek, nonce, plain);
      var kek := GetKek();
      match kek {
        case NoKey => sealed := Failed;
        case BadKey => sealed := KeyMalformed;
        case Key(key) =>
          var wrapped := c.wrap(key, dek, salt);
          if |wrapped| >= LENGTH_LIMIT {
            return LengthError;
          }
          sealed := Done(MAGIC + [VERSION] + Length(|wrapped|) + wrapped + nonce + cipher);
      }
    }

    method UnsealFile(data: Bytes) returns (plain: Outcome)
      modifies this`loaded
      ensures plain == Unseal(c, LoadKek(old(loaded), env), data)
      ensures LoadKek(loaded, env) == LoadKek(old(loaded), env)
    {
      if !HasMagic(data) {
        return Done(data);
      }
      var off := |MAGIC| + 1;
      var field := Slice(data, off, off + 2);
      if |field| != 2 {
        return Failed;
      }
      var wrappedLength := ReadLength(field);
      off := off + 2;
      var wrapped := Slice(data, off, off + wrappedLength);
      off := off + wrappedLength;
      var nonce := Slice(data, off, off + NONCE_LENGTH);
      var cipher := Slice(data, off + NONCE_LENGTH, |data|);
      var kek := GetKek();
      if kek.NoKey? {
        return Failed;
      }
      if kek.BadKey? {
        return KeyMalformed;
      }
      var dek := c.unwrap(kek.key, wrapped);
      if dek.None? {
        return Failed;
      }
      if !KeyFits(dek.value) || !NonceFits(nonce) {
        return ValueError;
      }
      var text := c.decrypt(dek.value, nonce, cipher);
      plain := if text.Some? then Done(text.value) else Failed;
    }
  }

  // --- the codec ---

  lemma SliceMiddle(before: Bytes, middle: Bytes, after: Bytes)
    ensures Slice(before + middle + after, |before|, |before| + |middle|) == middle
  {
  }

  /** The parts come back from an envelope whatever they are, for every length the field can hold. */
  lemma OpenInvertsEnvelope(wrapped: Bytes, nonce: Nonce, cipher: Bytes)
    requires |wrapped| < LENGTH_LIMIT
    ensures HasMagic(Envelope(wrapped, nonce, cipher))
    ensures Open(Envelope(wrapped, nonce, cipher)) == Some(Parts(wrapped, nonce, cipher))
  {
    var data := Envelope(wrapped, nonce, cipher);
    var head := MAGIC + [VERSION];
    var field := Length(|wrapped|);
    assert data == head + field + (wrapped + nonce + cipher);
    SliceMiddle(head, field, wrapped + nonce + cipher);
    assert data == (head + field) + wrapped + (nonce + cipher);
    SliceMiddle(head + field, wrapped, nonce + cipher);
    assert data == (head + field + wrapped) + nonce + cipher;
    SliceMiddle(head + field + wrapped, nonce, cipher);
    assert data == (head + field + wrapped + nonce) + cipher + [];
    SliceMiddle(head + field + wrapped + nonce, cipher, []);
  }

  lemma SealThenUnseal(c: Crypto, kek: Kek, plain: Bytes, dek: Dek, nonce: Nonce, salt: nat)
    requires Lawful(c) && kek.Key?
    ensures var sealed := Seal(c, kek, plain, dek, nonce, salt);
      sealed.Done? && HasMagic(sealed.bytes) && Unseal(c, kek, sealed.bytes) == Done(plain)
  {
    OpenInvertsEnvelope(c.wrap(kek.key, dek, salt), nonce, c.encrypt(dek, nonce, plain));
  }

  /** Bytes stored as they are read back as they are exactly when they do not begin with the magic. */
  lemma PlainReadsBack(c: Crypto, kek: Kek, plain: Bytes)
    requires Lawful(c)
    ensures Unseal(c, kek, plain) == Done(plain) <==> !HasMagic(plain)
  {
    if HasMagic(plain) && Open(plain).Some? {
      var cipher := Open(plain).value.cipher;
      assert |cipher| < |plain|;
    }
  }

  // --- files written while encryption is switched on and off ---

  datatype Event = Switch(on: bool) | Write(file: string, plain: Bytes, dek: Dek, nonce: Nonce, salt: nat)

  /** A stored file; `sealed` and `plain` say how and from what it was last written. */
  datatype File = File(stored: Bytes, plain: Bytes, sealed: bool)

  datatype Store = Store(on: bool, files: map<string, File>)

  function MaybeSeal(c: Crypto, kek: Kek, on: bool, plain: Bytes, dek: Dek, nonce: Nonce, salt: nat): Outcome {
    if on then Seal(c, kek, plain, dek, nonce, salt) else Done(plain)
  }

  /** A write that fails leaves the file as it was. */
  function Step(c: Crypto, kek: Kek, s: Store, e: Event): Store {
    match e
    case Switch(on) => s.(on := on)
    case Write(file, plain, dek, nonce, salt) =>
      var out := MaybeSeal(c, kek, s.on, plain, dek, nonce, salt);
      if out.Done?
      then s.(files := s.files[file := File(out.bytes, plain, s.on)]) else s
  }

  function Run(c: Crypto, kek: Kek, s: Store, events: seq<Event>): Store
    decreases |events|
  {
    if events == [] then s else Run(c, kek, Step(c, kek, s, events[0]), events[1..])
  }

  /** Reading gives the last plaintext exactly when it was sealed or does not begin with the magic. */
  predicate ReadsBack(c: Crypto, kek: Kek, f: File) {
    Unseal(c, kek, f.stored) == Done(f.plain) <==> f.sealed || !HasMagic(f.plain)
  }

  lemma StepReadsBack(c: Crypto, kek: Kek, s: Store, e: Event)
    requires Lawful(c) && forall file :: file in s.files ==> ReadsBack(c, kek, s.files[file])
    ensures forall file :: file in Step(c, kek, s, e).files ==> ReadsBack(c, kek, Step(c, kek, s, e).files[file])
  {
    match e
    case Switch(_) =>
    case Write(file, plain, dek, nonce, salt) =>
      PlainReadsBack(c, kek, plain);
      if kek.Key? {
        SealThenUnseal(c, kek, plain, dek, nonce, salt);
      }
  }

  lemma {:induction false} FilesReadBack(c: Crypto, kek: Kek, s: Store, events: seq<Event>)
    requires Lawful(c) && forall file :: file in s.files ==> ReadsBack(c, kek, s.files[file])
    ensures forall file :: file in Run(c, kek, s, events).files ==>
      ReadsBack(c, kek, Run(c, kek, s, events).files[file])
    decreases |events|
  {
    if events != [] {
      StepReadsBack(c, kek, s, events[0]);
      FilesReadBack(c, kek, Step(c, kek, s, events[0]), events[1..]);
    }
  }

  /** The last plaintext written to a file and whether encryption was on then. */
  function LastWrite(on: bool, events: seq<Event>, file: string): Option<(Bytes, bool)>
    decreases |events|
  {
    if events == [] then None else
    match events[0]
    case Switch(next) => LastWrite(next, events[1..], file)
    case Write(name, plain, _, _, _) =>
      var later := LastWrite(on, events[1..], file);
      if later.Some? then later else if name == file then Some((plain, on)) else None
  }

  lemma {:induction false} RunKeepsLastWrite(c: Crypto, kek: Kek, s: Store, events: seq<Event>, file: string)
    requires Lawful(c) && kek.Key?
    ensures var files := Run(c, kek, s, events).files;
      match LastWrite(s.on, events, file)
      case Some((plain, on)) => file in files && files[file].plain == plain && files[file].sealed == on
      case None => (file in files <==> file in s.files) && (file in files ==> files[file] == s.files[file])
    decreases |events|
  {
    if events != [] {
      RunKeepsLastWrite(c, kek, Step(c, kek, s, events[0]), events[1..], file);
      match events[0]
      case Switch(_) =>
      case Write(name, plain, dek, nonce, salt) => SealThenUnseal(c, kek, plain, dek, nonce, salt);
    }
  }

  /**
   After any run of switches and writes a file reads back as last written, exactly when encryption
   was on then or the plaintext does not begin with the magic.
   */
  lemma ReadsLastWritten(c: Crypto, kek: Kek, on: bool, events: seq<Event>, file: string)
    requires Lawful(c) && kek.Key?
    ensures var files := Run(c, kek, Store(on, map[]), events).files;
      match LastWrite(on, events, file)
      case Some((plain, sealed)) =>
        file in files && (Unseal(c, kek, files[file].stored) == Done(plain) <==> sealed || !HasMagic(plain))
      case None => file !in files
  {
    RunKeepsLastWrite(c, kek, Store(on, map[]), events, file);
    FilesReadBack(c, kek, Store(on, map[]), events);
  }

  /**
   Not every changed byte is noticed: the version is never read, and without its magic an envelope
   passes for plaintext.
   */
  lemma HeaderUnchecked(c: Crypto, kek: Kek, plain: Bytes, dek: Dek, nonce: Nonce, salt: nat, i: nat, b: Byte)
    requires Lawful(c) && kek.Key? && i <= |MAGIC|
    ensures var sealed := Seal(c, kek, plain, dek, nonce, salt);
      sealed.Done? && |sealed.bytes| > |MAGIC| && var changed := sealed.bytes[i := b];
      Unseal(c, kek, changed) == Done(if HasMagic(changed) then plain else changed)
  {
    SealThenUnseal(c, kek, plain, dek, nonce, salt);
    var data := Seal(c, kek, plain, dek, nonce, salt).bytes;
    var changed := data[i := b];
    if HasMagic(changed) {
      OpenPastVersion(data, changed);
    }
  }

  lemma OpenPastVersion(a: Bytes, b: Bytes)
    requires |a| == |b| > |MAGIC| && a[6..] == b[6..]
    ensures Open(a) == Open(b)
  {
    SlicePast(a, b, 6, 8);
    var field := Slice(a, 6, 8);
    if |field| == 2 {
      var start := 8 + ReadLength(field);
      SlicePast(a, b, 8, start);
      SlicePast(a, b, start, start + NONCE_LENGTH);
      SlicePast(a, b, start + NONCE_LENGTH, |a|);
    }
  }

  lemma SlicePast(a: Bytes, b: Bytes, low: nat, high: nat)
    requires |a| == |b| && |a| >= 6 && low >= 6 && a[6..] == b[6..]
    ensures Slice(a, low, high) == Slice(b, low, high)
  {
    forall k | 6 <= k < |a| ensures a[k] == b[k] {
      assert a[6..][k - 6] == b[6..][k - 6];
    }
  }

  // --- what each outcome means ---

  /** With a key a file is sealed in the documented layout; without one nothing is given out. */
  lemma SealExactly(c: Crypto, kek: Kek, plain: Bytes, dek: Dek, nonce: Nonce, salt: nat)
    ensures var out := Seal(c, kek, plain, dek, nonce, salt);
      && (out == Failed <==> kek == NoKey)
      && (out == KeyMalformed <==> kek == BadKey)
      && (out.Done? <==> kek.Key? && |c.wrap(kek.key, dek, salt)| < 65536)
      && (out.Done? ==> IsLaidOut(out.bytes, c.wrap(kek.key, dek, salt), nonce, c.encrypt(dek, nonce, plain)))
  {
  }

  /** The two bytes after the version, high byte first. */
  function Sixteen(data: Bytes): nat
    requires |data| >= 8
  {
    data[6] as nat * 256 + data[7] as nat
  }

  /** "PENC1", the version one, the wrapped key's length, and then the three parts. */
  predicate IsLaidOut(data: Bytes, wrapped: Bytes, nonce: Bytes, cipher: Bytes) {
    && |data| >= 8 && data[..6] == [0x50, 0x45, 0x4e, 0x43, 0x31, 0x01]
    && Sixteen(data) == |wrapped|
    && data[8..] == wrapped + nonce + cipher
  }

  /**
   The parts of a file that begins with the magic, in the order in which they are read: where the file
   ends early the later parts are cut short.
   */
  predicate AreParts(data: Bytes, p: Parts) {
    && |data| >= 8 && data[8..] == p.wrapped + p.nonce + p.cipher
    && |p.wrapped| <= Sixteen(data) && |p.nonce| <= 12
    && (|p.wrapped| < Sixteen(data) ==> p.nonce == [])
    && (|p.nonce| < 12 ==> p.cipher == [])
  }

  lemma OpenExactly(data: Bytes)
    ensures Open(data).Some? <==> |data| >= 8
    ensures Open(data).Some? ==> AreParts(data, Open(data).value)
  {
    if |data| >= 8 {
      var size := data[6] as nat * 256 + data[7] as nat;
      assert Slice(data, 6, 8) == [data[6], data[7]];
      var p := Open(data).value;
      var a, b := AtMost(8 + size, |data|), AtMost(8 + size + NONCE_LENGTH, |data|);
      assert p.wrapped == data[8..a] && p.nonce == data[a..b] && p.cipher == data[b..];
      assert data[8..] == data[8..a] + data[a..b] + data[b..];
    }
  }

  /** The key opens these parts and gives this plaintext, all of it. */
  predicate Decrypts(c: Crypto, key: Bytes, p: Parts, plain: Bytes) {
    var dek := c.unwrap(key, p.wrapped);
    dek.Some? && KeyFits(dek.value) && NonceFits(p.nonce) && c.decrypt(dek.value, p.nonce, p.cipher) == Some(plain)
  }

  /** A file with the magic gives bytes only when key, wrapped key and ciphertext all open: never part of them. */
  lemma UnsealExactly(c: Crypto, kek: Kek, data: Bytes, plain: Bytes)
    requires HasMagic(data)
    ensures Unseal(c, kek, data) == Done(plain) <==>
      kek.Key? && |data| >= 8 && exists p :: AreParts(data, p) && Decrypts(c, kek.key, p, plain)
  {
    OpenExactly(data);
    if kek.Key? && |data| >= 8 {
      if p :| AreParts(data, p) && Decrypts(c, kek.key, p, plain) {
        PartsUnique(data, p, Open(data).value);
      }
      if Unseal(c, kek, data) == Done(plain) {
        assert Decrypts(c, kek.key, Open(data).value, plain);
      }
    }
  }

  lemma PartsUnique(data: Bytes, p: Parts, q: Parts)
    requires AreParts(data, p) && AreParts(data, q)
    ensures p == q
  {
    assert |p.wrapped| == |q.wrapped|;
    assert |p.nonce| == |q.nonce|;
    assert p.wrapped + (p.nonce + p.cipher) == data[8..] == q.wrapped + (q.nonce + q.cipher);
    SplitUnique(p.wrapped, p.nonce + p.cipher, q.wrapped, q.nonce + q.cipher);
    SplitUnique(p.nonce, p.cipher, q.nonce, q.cipher);
  }

  lemma SplitUnique(a: Bytes, b: Bytes, c: Bytes, d: Bytes)
    requires a + b == c + d && |a| == |c|
    ensures a == c && b == d
  {
    assert a == (a + b)[..|a|] && b == (a + b)[|a|..];
    assert c == (c + d)[..|c|] && d == (c + d)[|c|..];
  }

  // --- a store without a key ---

  /** The last plaintext written to a file while encryption was off. */
  function LastClear(on: bool, events: seq<Event>, file: string): Option<Bytes>
    decreases |events|
  {
    if events == [] then None else
    match events[0]
    case Switch(next) => LastClear(next, events[1..], file)
    case Write(name, plain, _, _, _) =>
      var later := LastClear(on, events[1..], file);
      if later.Some? then later else if name == file && !on then Some(plain) else None
  }

  /** Without a usable key a write with encryption on stores nothing, rather than the plaintext. */
  lemma NoKeyNoWrite(c: Crypto, kek: Kek, s: Store, e: Event)
    requires !kek.Key? && s.on && e.Write?
    ensures Step(c, kek, s, e) == s
    ensures MaybeSeal(c, kek, true, e.plain, e.dek, e.nonce, e.salt) in {Failed, KeyMalformed}
  {
  }

  /** So over any run its files are those written while encryption was off, as they are. */
  lemma {:induction false} NoKeyStoresClearOnly(c: Crypto, kek: Kek, s: Store, events: seq<Event>, file: string)
    requires !kek.Key?
    ensures var files := Run(c, kek, s, events).files;
      match LastClear(s.on, events, file)
      case Some(plain) => file in files && files[file] == File(plain, plain, false)
      case None => (file in files <==> file in s.files) && (file in files ==> files[file] == s.files[file])
    decreases |events|
  {
    if events != [] {
      NoKeyStoresClearOnly(c, kek, Step(c, kek, s, events[0]), events[1..], file);
    }
  }

  /** A file written with encryption on begins with the magic, over every run and with whatever key. */
  lemma {:induction false} SealedHasMagic(c: Crypto, kek: Kek, s: Store, events: seq<Event>, file: string)
    requires forall name :: name in s.files && s.files[name].sealed ==> HasMagic(s.files[name].stored)
    ensures var files := Run(c, kek, s, events).files;
      file in files && files[file].sealed ==> HasMagic(files[file].stored)
    decreases |events|
  {
    if events != [] {
      if events[0].Write? {
        WriteHasMagic(c, kek, s, events[0]);
      }
      SealedHasMagic(c, kek, Step(c, kek, s, events[0]), events[1..], file);
    }
  }

  lemma WriteHasMagic(c: Crypto, kek: Kek, s: Store, e: Event)
    requires e.Write? && forall name :: name in s.files && s.files[name].sealed ==> HasMagic(s.files[name].stored)
    ensures var after := Step(c, kek, s, e);
      forall name :: name in after.files && after.files[name].sealed ==> HasMagic(after.files[name].stored)
  {
    SealExactly(c, kek, e.plain, e.dek, e.nonce, e.salt);
    var out := Seal(c, kek, e.plain, e.dek, e.nonce, e.salt);
    assert out.Done? ==> out.bytes[..5] == out.bytes[..6][..5];
  }
}
