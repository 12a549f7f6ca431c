/**
 Encryption at the read and write boundary: records are sealed under the policy of the day
 and read by their markers alone, so policies and keys may change between writing and reading.
 */
module Encryption {
  import opened Values
  import opened SecondaryIndex

  const SECURE_FIELD := "secure_data"

  /** What is sealed: one field's value, or all the fields of a record that are not kept as columns. */
  datatype Payload = One(v: Value) | Many(d: Data)

  /** An authenticated cipher over JSON: envelopes carry a marker, name their key, and open only under the field they were sealed for. */
  datatype Cipher = Cipher(
    seal: (nat, nat, string, Payload) -> string, open: (set<nat>, string, string) -> Option<Payload>,
    marked: string -> bool, reserved: string -> bool)

  ghost predicate ValidCipher(c: Cipher) {
    && (forall s :: c.marked(s) ==> c.reserved(s))
    && (forall key, nonce, field, p :: c.marked(c.seal(key, nonce, field, p)))
    && (forall keys, key, nonce, field, p :: key in keys ==> c.open(keys, c.seal(key, nonce, field, p), field) == Some(p))
  }

  datatype Policy = Disabled | Fields(fields: set<string>) | Record(index: set<string>)

  datatype Mode = ByField | ByRecord

  /** A collection's encryptor: the policy for writes, the fixed read mode, the keys at hand and the current one. */
  datatype Encryptor = Encryptor(policy: Policy, mode: Mode, keys: set<nat>, current: nat)

  datatype Result = Ok(data: Data) | Err

  /** Policies of one collection share its read mode, and the caller-supplied key is never sealed. */
  predicate Fitting(p: Policy, mode: Mode) {
    match p
    case Disabled => true
    case Fields(fields) => mode.ByField? && KEY_FIELD !in fields
    case Record(_) => mode.ByRecord?
  }

  // ----- writing ---------------------------------------------------------------------------------------------

  predicate Collides(d: Data, c: Cipher) {
    exists f :: f in d && d[f].Str? && c.reserved(d[f].s)
  }

  predicate Column(f: string, index: set<string>) {
    f == KEY_FIELD || f in index
  }

  function Columns(d: Data, index: set<string>): Data {
    map f | f in d && Column(f, index) :: d[f]
  }

  function Hidden(d: Data, index: set<string>): Data {
    map f | f in d && !Column(f, index) :: d[f]
  }

  /** The stored form of a record; `nonce` gives each envelope its nonce. */
  function Encrypt(e: Encryptor, d: Data, nonce: string -> nat, c: Cipher): Result {
    if Collides(d, c) then Err
    else
      match e.policy
      case Disabled => Ok(d)
      case Fields(fields) =>
        Ok(map f | f in d :: if f in fields then Str(c.seal(e.current, nonce(f), f, One(d[f]))) else d[f])
      case Record(index) =>
        if SECURE_FIELD in d then Err
        else Ok(Columns(d, index)[SECURE_FIELD := Str(c.seal(e.current, nonce(SECURE_FIELD), SECURE_FIELD, Many(Hidden(d, index))))])
  }

  // ----- reading ---------------------------------------------------------------------------------------------

  predicate Sealed(v: Value, c: Cipher) {
    v.Str? && c.marked(v.s)
  }

  /** A value is decrypted exactly if it carries the marker. */
  function Opened(e: Encryptor, f: string, v: Value, c: Cipher): Option<Value> {
    if !Sealed(v, c) then Some(v)
    else
      match c.open(e.keys, v.s, f)
      case Some(One(w)) => Some(w)
      case _ => None
  }

  function Blob(e: Encryptor, stored: Data, c: Cipher): Option<Data> {
    if SECURE_FIELD !in stored || !Sealed(stored[SECURE_FIELD], c) then Some(map[])
    else
      match c.open(e.keys, stored[SECURE_FIELD].s, SECURE_FIELD)
      case Some(Many(d)) => Some(d)
      case _ => None
  }

  predicate Wanted(f: string, fields: seq<string>) {
    fields == [] || f in fields
  }

  function ReadFields(e: Encryptor, stored: Data, fields: seq<string>, c: Cipher): Result {
    if exists f :: f in stored && Wanted(f, fields) && Opened(e, f, stored[f], c).None? then Err
    else
      var out := map f | f in stored && Wanted(f, fields) :: Opened(e, f, stored[f], c).value;
      Ok(if fields != [] && KEY_FIELD in stored then out[KEY_FIELD := stored[KEY_FIELD]] else out)
  }

  /** Columns first; the blob is opened only when a wanted field is not among them. */
  function ReadRecord(e: Encryptor, stored: Data, fields: seq<string>, c: Cipher): Result {
    var columns := stored - {SECURE_FIELD};
    if fields == [] then
      if Blob(e, stored, c).None? then Err else Ok(columns + Blob(e, stored, c).value)
    else
      var out := map f | f in columns && (f == KEY_FIELD || f in fields) :: columns[f];
      if forall f :: f in fields ==> f == KEY_FIELD || f in columns then Ok(out)
      else if Blob(e, stored, c).None? then Err
      else
        var merged := Blob(e, stored, c).value;
        Ok((map f | f in merged && f in fields && f != KEY_FIELD :: merged[f]) + out)
  }

  function Materialize(e: Encryptor, stored: Data, fields: seq<string>, c: Cipher): Result {
    if e.mode.ByRecord? then ReadRecord(e, stored, fields, c) else ReadFields(e, stored, fields, c)
  }

  /** A view of a record limited to some fields; the caller-supplied key always stays. */
  function Project(d: Data, fields: seq<string>): Data {
    if fields == [] then d else map f | f in d && (f in fields || f == KEY_FIELD) :: d[f]
  }

  // ----- what is sealed under any policy reads back ------------------------------------------------------

  lemma FieldsRead(w: Encryptor, r: Encryptor, d: Data, nonce: string -> nat, fields: seq<string>, c: Cipher)
    requires ValidCipher(c) && r.mode.ByField? && Fitting(w.policy, r.mode) && w.current in r.keys && !Collides(d, c)
    ensures Encrypt(w, d, nonce, c).Ok? && Materialize(r, Encrypt(w, d, nonce, c).data, fields, c) == Ok(Project(d, fields))
  {
    var stored := Encrypt(w, d, nonce, c).data;
    assert stored.Keys == d.Keys;
    forall f | f in stored
      ensures Opened(r, f, stored[f], c) == Some(d[f])
    {
      if w.policy.Fields? && f in w.policy.fields {
        assert c.open(r.keys, c.seal(w.current, nonce(f), f, One(d[f])), f) == Some(One(d[f]));
      }
    }
    hide ValidCipher, Opened, Encrypt, Collides;
  }

  lemma RecordRead(w: Encryptor, r: Encryptor, d: Data, nonce: string -> nat, fields: seq<string>, c: Cipher)
    requires ValidCipher(c) && r.mode.ByRecord? && Fitting(w.policy, r.mode) && w.current in r.keys
    requires !Collides(d, c) && SECURE_FIELD !in d
    ensures Encrypt(w, d, nonce, c).Ok? && Materialize(r, Encrypt(w, d, nonce, c).data, fields, c) == Ok(Project(d, fields))
  {
    var stored := Encrypt(w, d, nonce, c).data;
    var columns, blob := stored - {SECURE_FIELD}, Blob(r, stored, c);
    if w.policy.Record? {
      var sealed := c.seal(w.current, nonce(SECURE_FIELD), SECURE_FIELD, Many(Hidden(d, w.policy.index)));
      assert c.open(r.keys, sealed, SECURE_FIELD) == Some(Many(Hidden(d, w.policy.index)));
      assert blob == Some(Hidden(d, w.policy.index)) && columns == Columns(d, w.policy.index);
      ColumnsAndBlob(r, stored, d, fields, w.policy.index, c);
    } else {
      assert blob == Some(map[]) && columns == d;
      hide ValidCipher, Encrypt, Collides;
      PlainRead(r, stored, d, fields, c);
    }
  }

  lemma PlainRead(r: Encryptor, stored: Data, d: Data, fields: seq<string>, c: Cipher)
    requires stored - {SECURE_FIELD} == d && Blob(r, stored, c) == Some(map[])
    ensures ReadRecord(r, stored, fields, c) == Ok(Project(d, fields))
  {
    hide Blob;
  }

  lemma ColumnsAndBlob(r: Encryptor, stored: Data, d: Data, fields: seq<string>, index: set<string>, c: Cipher)
    requires stored - {SECURE_FIELD} == Columns(d, index) && Blob(r, stored, c) == Some(Hidden(d, index))
    ensures ReadRecord(r, stored, fields, c) == Ok(Project(d, fields))
  {
    hide Blob;
    if fields == [] {
      assert Columns(d, index) + Hidden(d, index) == d;
    } else {
      var columns, merged := Columns(d, index), Hidden(d, index);
      var out := map f | f in columns && (f == KEY_FIELD || f in fields) :: columns[f];
      if forall f :: f in fields ==> f == KEY_FIELD || f in columns {
        assert out == Project(d, fields);
      } else {
        assert (map f | f in merged && f in fields && f != KEY_FIELD :: merged[f]) + out == Project(d, fields);
      }
    }
  }

  /** Stored in the clear for record-mode reads, a field with the reserved name is left out. */
  lemma ReservedLeftOut(w: Encryptor, r: Encryptor, d: Data, nonce: string -> nat, fields: seq<string>, c: Cipher)
    requires ValidCipher(c) && r.mode.ByRecord? && w.policy.Disabled? && !Collides(d, c) && SECURE_FIELD in d
    ensures Materialize(r, Encrypt(w, d, nonce, c).data, fields, c) == Ok(Project(d - {SECURE_FIELD}, fields))
  {
    assert Blob(r, d, c) == Some(map[]);
    PlainRead(r, d, d - {SECURE_FIELD}, fields, c);
  }

  /**
   Whatever policy and key a record was sealed under, reading gives back its plaintext, projected or whole,
   exactly unless record-mode reads are asked for a field with the reserved name.
   */
  lemma SealedReadsBack(w: Encryptor, r: Encryptor, d: Data, nonce: string -> nat, fields: seq<string>, c: Cipher)
    requires ValidCipher(c) && w.mode == r.mode && Fitting(w.policy, w.mode) && w.current in r.keys
    requires Encrypt(w, d, nonce, c).Ok?
    ensures Materialize(r, Encrypt(w, d, nonce, c).data, fields, c) == Ok(Project(d, fields)) <==>
      r.mode.ByField? || SECURE_FIELD !in d || (fields != [] && SECURE_FIELD !in fields)
  {
    RefusedExactly(w, d, nonce, c);
    hide Materialize, Encrypt, ValidCipher, Collides;
    if r.mode.ByRecord? {
      if SECURE_FIELD in d {
        ReservedLeftOut(w, r, d, nonce, fields, c);
        ProjectWithout(d, fields);
      } else {
        RecordRead(w, r, d, nonce, fields, c);
      }
    } else {
      FieldsRead(w, r, d, nonce, fields, c);
    }
  }

  lemma ProjectWithout(d: Data, fields: seq<string>)
    requires SECURE_FIELD in d
    ensures Project(d - {SECURE_FIELD}, fields) == Project(d, fields) <==> fields != [] && SECURE_FIELD !in fields
  {
    assert SECURE_FIELD != KEY_FIELD;
    if fields != [] && SECURE_FIELD in fields {
      assert SECURE_FIELD in Project(d, fields) && SECURE_FIELD !in Project(d - {SECURE_FIELD}, fields);
    }
  }

  /** Exactly the records with a reserved value, or the reserved field in record mode, are refused. */
  lemma RefusedExactly(w: Encryptor, d: Data, nonce: string -> nat, c: Cipher)
    ensures Encrypt(w, d, nonce, c).Err? <==> Collides(d, c) || (w.policy.Record? && SECURE_FIELD in d)
  {
  }

  // ----- what is on disk ----------------------------------------------------------------------------------

  /** The value is an envelope that the current key alone opens to `p` under the name it stands for. */
  ghost predicate Envelope(v: Value, w: Encryptor, f: string, p: Payload, c: Cipher) {
    Sealed(v, c) && c.open({w.current}, v.s, f) == Some(p)
  }

  /** `rest` is the fields of `d` that are neither the caller-supplied key nor columns. */
  ghost predicate RestOf(rest: Data, d: Data, index: set<string>) {
    && (forall f :: f in rest <==> f in d && f != KEY_FIELD && f !in index)
    && (forall f :: f in rest ==> rest[f] == d[f])
  }

  /**
   What a policy puts on disk. Listed fields are envelopes of their values and the others are in the clear; in record
   mode the columns and the caller-supplied key are in the clear and one envelope holds exactly the rest.
   */
  ghost predicate StoredAs(w: Encryptor, d: Data, stored: Data, c: Cipher) {
    match w.policy
    case Disabled => stored == d
    case Fields(fields) =>
      && stored.Keys == d.Keys
      && (forall f :: f in d && f in fields ==> Envelope(stored[f], w, f, One(d[f]), c))
      && (forall f :: f in d && f !in fields ==> stored[f] == d[f])
    case Record(index) =>
      && (forall f :: f in stored <==> f == SECURE_FIELD || (f in d && (f == KEY_FIELD || f in index)))
      && (forall f :: f in stored && f != SECURE_FIELD ==> stored[f] == d[f])
      && exists rest :: RestOf(rest, d, index) && Envelope(stored[SECURE_FIELD], w, SECURE_FIELD, Many(rest), c)
  }

  /** Every accepted write is stored as its policy says. */
  lemma WriteSeals(w: Encryptor, d: Data, nonce: string -> nat, c: Cipher)
    requires ValidCipher(c) && Encrypt(w, d, nonce, c).Ok?
    ensures StoredAs(w, d, Encrypt(w, d, nonce, c).data, c)
  {
    var stored := Encrypt(w, d, nonce, c).data;
    match w.policy
    case Disabled =>
    case Fields(fields) =>
      forall f | f in d && f in fields
        ensures Envelope(stored[f], w, f, One(d[f]), c)
      {
        SealOpens(w, nonce(f), f, One(d[f]), c);
      }
    case Record(index) =>
      SealOpens(w, nonce(SECURE_FIELD), SECURE_FIELD, Many(Hidden(d, index)), c);
      assert RestOf(Hidden(d, index), d, index);
  }

  lemma SealOpens(w: Encryptor, nonce: nat, f: string, p: Payload, c: Cipher)
    requires ValidCipher(c)
    ensures Envelope(Str(c.seal(w.current, nonce, f, p)), w, f, p, c)
  {
    assert w.current in {w.current};
  }

  // ----- re-encryption ------------------------------------------------------------------------------------

  function Reencrypt(e: Encryptor, stored: Data, nonce: string -> nat, c: Cipher): Result {
    match Materialize(e, stored, [], c)
    case Err => Err
    case Ok(d) => Encrypt(e, d, nonce, c)
  }

  /** What a full read of a stored record gives: all of it, but for a reserved name in record mode. */
  function Readable(d: Data, mode: Mode): Data {
    if mode.ByRecord? then d - {SECURE_FIELD} else d
  }

  lemma ReadsWhole(w: Encryptor, e: Encryptor, d: Data, nonce: string -> nat, c: Cipher)
    requires ValidCipher(c) && w.mode == e.mode && Fitting(w.policy, w.mode) && w.current in e.keys && Encrypt(w, d, nonce, c).Ok?
    ensures Materialize(e, Encrypt(w, d, nonce, c).data, [], c) == Ok(Readable(d, e.mode))
  {
    RefusedExactly(w, d, nonce, c);
    hide Materialize, Encrypt, ValidCipher, Collides;
    if e.mode.ByField? {
      FieldsRead(w, e, d, nonce, [], c);
    } else if SECURE_FIELD in d {
      ReservedLeftOut(w, e, d, nonce, [], c);
    } else {
      RecordRead(w, e, d, nonce, [], c);
      assert d - {SECURE_FIELD} == d;
    }
  }

  /** Re-encrypting what any policy wrote stores the plaintext that reads back as the new policy and key say. */
  lemma ReencryptSeals(w: Encryptor, e: Encryptor, d: Data, nonce: string -> nat, again: string -> nat, c: Cipher)
    requires ValidCipher(c) && w.mode == e.mode && Fitting(w.policy, w.mode) && Fitting(e.policy, e.mode) && w.current in e.keys
    requires Encrypt(w, d, nonce, c).Ok?
    ensures
      var r := Reencrypt(e, Encrypt(w, d, nonce, c).data, again, c);
      r.Ok? && StoredAs(e, Readable(d, e.mode), r.data, c)
  {
    var plain := Readable(d, e.mode);
    RefusedExactly(w, d, nonce, c);
    RefusedExactly(e, plain, again, c);
    assert !Collides(plain, c);
    hide Materialize, Encrypt, ValidCipher, Collides, StoredAs;
    ReadsWhole(w, e, d, nonce, c);
    WriteSeals(e, plain, again, c);
  }

  /** A record carried through a sequence of policies and keys, one re-encryption each. */
  function Carried(es: seq<Encryptor>, stored: Data, nonces: seq<string -> nat>, c: Cipher): Result
    requires |nonces| == |es|
  {
    if es == [] then Ok(stored)
    else
      var n := |es| - 1;
      match Carried(es[..n], stored, nonces[..n], c)
      case Err => Err
      case Ok(s) => Reencrypt(es[n], s, nonces[n], c)
  }

  /** Each encryptor of a history can open what the one before it wrote, and all share the read mode. */
  ghost predicate History(es: seq<Encryptor>) {
    && (forall i :: 0 <= i < |es| ==> es[i].mode == es[0].mode && Fitting(es[i].policy, es[i].mode))
    && (forall i :: 0 < i < |es| ==> es[i - 1].current in es[i].keys)
  }

  /** Through every history of policies and key rotations the plaintext stays what it was. */
  lemma {:induction false} HistoryKeepsPlaintext(es: seq<Encryptor>, d: Data, nonces: seq<string -> nat>, r: Encryptor, fields: seq<string>,
                                                c: Cipher)
    requires ValidCipher(c) && !Collides(d, c) && |es| > 0 && (es[0].mode.ByField? || SECURE_FIELD !in d)
    requires |nonces| == |es| && History(es) && r.mode == es[0].mode && es[|es| - 1].current in r.keys
    ensures Encrypt(es[0], d, nonces[0], c).Ok?
    ensures
      var first := Encrypt(es[0], d, nonces[0], c).data;
      var last := Carried(es[1..], first, nonces[1..], c);
      && last == Encrypt(es[|es| - 1], d, nonces[|es| - 1], c) && last.Ok? && StoredAs(es[|es| - 1], d, last.data, c)
      && Materialize(r, last.data, fields, c) == Ok(Project(d, fields))
  {
    var n := |es| - 1;
    RefusedExactly(es[0], d, nonces[0], c);
    RefusedExactly(es[n], d, nonces[n], c);
    SealedReadsBack(es[n], r, d, nonces[n], fields, c);
    WriteSeals(es[n], d, nonces[n], c);
    hide StoredAs;
    if n > 0 {
      var front := es[..n];
      HistoryKeepsPlaintext(front, d, nonces[..n], es[n], [], c);
      assert front[1..] == es[1..][..n - 1] && nonces[..n][1..] == nonces[1..][..n - 1];
    }
  }

  // ----- reads that fail ------------------------------------------------------------------------------------

  /** The value is an envelope the keys at hand do not open to a single value. */
  predicate Locked(e: Encryptor, f: string, v: Value, c: Cipher) {
    v.Str? && c.marked(v.s) && !(c.open(e.keys, v.s, f).Some? && c.open(e.keys, v.s, f).value.One?)
  }

  /** The record's envelope is one the keys at hand do not open to fields. */
  predicate BlobLocked(e: Encryptor, stored: Data, c: Cipher) {
    && SECURE_FIELD in stored && stored[SECURE_FIELD].Str? && c.marked(stored[SECURE_FIELD].s)
    && !(c.open(e.keys, stored[SECURE_FIELD].s, SECURE_FIELD).Some? && c.open(e.keys, stored[SECURE_FIELD].s, SECURE_FIELD).value.Many?)
  }

  /**
   Reads fail closed: a read is refused exactly if an envelope it needs does not open, that is a wanted field, or in record
   mode the blob when everything or a field that is no column is wanted.
   */
  lemma ReadFailsExactlyWhen(r: Encryptor, stored: Data, fields: seq<string>, c: Cipher)
    ensures Materialize(r, stored, fields, c).Err? <==>
      if r.mode.ByField? then exists f :: f in stored && (fields == [] || f in fields) && Locked(r, f, stored[f], c)
      else BlobLocked(r, stored, c) && (fields == [] || exists f :: f in fields && f != KEY_FIELD && (f !in stored || f == SECURE_FIELD))
  {
    forall f | f in stored
      ensures Opened(r, f, stored[f], c).None? <==> Locked(r, f, stored[f], c)
    {
    }
    assert Blob(r, stored, c).None? <==> BlobLocked(r, stored, c);
  }

  // ----- edges -----------------------------------------------------------------------------------------------

  /** A projection onto columns needs no key. */
  lemma ColumnsNeedNoKey(r: Encryptor, stored: Data, fields: seq<string>, c: Cipher)
    requires r.mode.ByRecord? && fields != [] && forall f :: f in fields ==> f == KEY_FIELD || (f in stored && f != SECURE_FIELD)
    ensures Materialize(r, stored, fields, c).Ok? && Materialize(r.(keys := {}), stored, fields, c) == Materialize(r, stored, fields, c)
  {
  }

  /** The failing input: written while sealing is off, a field with the reserved name is lost to record-mode reads. */
  lemma ReservedNameIsSkipped(w: Encryptor, r: Encryptor, v: Value, nonce: string -> nat, c: Cipher)
    requires w.policy.Disabled? && r.mode.ByRecord? && !Sealed(v, c) && !(v.Str? && c.reserved(v.s))
    ensures
      var d := map[SECURE_FIELD := v];
      Encrypt(w, d, nonce, c) == Ok(d) && Materialize(r, d, [], c) == Ok(map[])
  {
  }
}
