/** A key-value table over an S3 bucket with DynamoDB-style `get_item` /
    `put_item`: each item is stored as one object whose name is derived from
    the item's declared key fields alone. */
module S3KeyValueStore {
  import opened PyValue

  type Item = map<string, Value>

  /** SHA-256 hex digest of `json.dumps(key_fields, sort_keys=True)`. With
      sorted keys the text is a function of the key-field map alone; the hash
      is taken to be collision-free, so the digest is modelled by that map. */
  datatype Digest = Sha256OfSortedJson(keyFields: map<string, Value>)

  /** The object key `prefix + '/' + digest`. The hex digest has a fixed
      length, so the text determines the pair and the pair the text. */
  datatype ObjectName = ObjectName(prefix: string, digest: Digest)

  /** `{'Item': item}` when found, `{}` when not. */
  datatype GetResponse = GetResponse(item: Option<Item>)

  /** The key code of the storage error that means "no such object". */
  const NoSuchKey := "NoSuchKey"

  // ---------------------------------------------------------------------------
  // Prefix normalisation

  function StripLeftSlashes(s: string): (r: string)
    ensures |r| <= |s| && r == s[|s| - |r|..]
    ensures r == [] || r[0] != '/'
    ensures forall i :: 0 <= i < |s| - |r| ==> s[i] == '/'
  {
    if s != [] && s[0] == '/' then
      var r := StripLeftSlashes(s[1..]);
      assert s[1..][|s| - 1 - |r|..] == s[|s| - |r|..];
      assert forall i :: 1 <= i < |s| ==> s[i] == s[1..][i - 1];
      r
    else s
  }

  function StripRightSlashes(s: string): (r: string)
    ensures |r| <= |s| && r == s[..|r|]
    ensures r == [] || r[|r| - 1] != '/'
    ensures forall i :: |r| <= i < |s| ==> s[i] == '/'
  {
    if s != [] && s[|s| - 1] == '/' then
      var r := StripRightSlashes(s[..|s| - 1]);
      assert s[..|s| - 1][..|r|] == s[..|r|];
      r
    else s
  }

  /** `prefix.strip('/')`. */
  function StripSlashes(s: string): (r: string)
    ensures r == [] || (r[0] != '/' && r[|r| - 1] != '/')
    ensures '/' !in s ==> r == s
  {
    var l := StripLeftSlashes(s);
    assert '/' !in s ==> l == s;
    StripRightSlashes(l)
  }

  /** The stripped prefix is the middle of the given one, and only `/`
      characters were removed on either side. */
  lemma StripSlashesKeepsMiddle(s: string)
    ensures var i, r := |s| - |StripLeftSlashes(s)|, StripSlashes(s);
            && i + |r| <= |s| && r == s[i..i + |r|]
            && (forall k :: 0 <= k < i ==> s[k] == '/')
            && (forall k :: i + |r| <= k < |s| ==> s[k] == '/')
  {
    var l := StripLeftSlashes(s);
    var r := StripRightSlashes(l);
    assert StripSlashes(s) == r;
    MiddleOf(s, l, r);
  }

  lemma MiddleOf(s: string, l: string, r: string)
    requires |l| <= |s| && l == s[|s| - |l|..] && forall k :: 0 <= k < |s| - |l| ==> s[k] == '/'
    requires |r| <= |l| && r == l[..|r|] && forall k :: |r| <= k < |l| ==> l[k] == '/'
    ensures var i := |s| - |l|;
            && i + |r| <= |s| && r == s[i..i + |r|]
            && (forall k :: 0 <= k < i ==> s[k] == '/')
            && (forall k :: i + |r| <= k < |s| ==> s[k] == '/')
  {
    var i := |s| - |l|;
    forall k | i + |r| <= k < |s|
      ensures s[k] == '/'
    {
      assert s[k] == l[k - i];
    }
  }

  /** Stripping is idempotent: a normalised prefix is its own normal form. */
  lemma StripSlashesIdempotent(s: string)
    ensures StripSlashes(StripSlashes(s)) == StripSlashes(s)
  {
    var r := StripSlashes(s);
    if r != [] {
      assert StripLeftSlashes(r) == r;
      assert StripRightSlashes(r) == r;
    }
  }

  // ---------------------------------------------------------------------------
  // Key validation and object names

  /** The `Item=` / `Key=` keyword argument: absent raises `KeyError`, a
      non-dict `TypeError`. */
  function ItemArg(kwarg: Option<Value>): (r: Result<Item>)
    ensures r.Err? <==> kwarg.None? || !kwarg.value.VDict?
    ensures r.Err? ==> r.exc == (if kwarg.None? then KeyError else TypeError)
  {
    match kwarg
    case None => Err(KeyError)
    case Some(VDict(m)) => Ok(m)
    case Some(_) => Err(TypeError)
  }

  /** The declared key fields of an item that has them all. */
  function KeyFieldsOf(keys: set<string>, item: Item): (k: map<string, Value>)
    requires keys <= item.Keys
    ensures k.Keys == keys
    ensures forall f :: f in keys ==> k[f] == item[f]
  {
    map f | f in keys :: item[f]
  }

  /** The object an item or key maps to: `ValueError` when a declared key
      field is missing, after the keyword-argument checks. */
  function Locate(prefix: string, keys: set<string>, kwarg: Option<Value>): (r: Result<ObjectName>)
    ensures r.Ok? <==> ItemArg(kwarg).Ok? && keys <= ItemArg(kwarg).value.Keys
    ensures ItemArg(kwarg).Ok? && !(keys <= ItemArg(kwarg).value.Keys) ==> r == Err(ValueError)
    ensures r.Ok? ==> r.value.prefix == prefix
  {
    match ItemArg(kwarg)
    case Err(e) => Err(e)
    case Ok(item) =>
      if keys <= item.Keys then Ok(ObjectName(prefix, Sha256OfSortedJson(KeyFieldsOf(keys, item))))
      else Err(ValueError)
  }

  /** Two items with all key fields land on the same object exactly when they
      agree on every key field; other fields play no part. */
  lemma NameDependsOnlyOnKeyFields(prefix: string, keys: set<string>, a: Item, b: Item)
    requires keys <= a.Keys && keys <= b.Keys
    ensures Locate(prefix, keys, Some(VDict(a))) == Locate(prefix, keys, Some(VDict(b)))
            <==> forall f :: f in keys ==> a[f] == b[f]
  {
    if forall f :: f in keys ==> a[f] == b[f] {
      assert KeyFieldsOf(keys, a) == KeyFieldsOf(keys, b);
    } else {
      var f :| f in keys && a[f] != b[f];
      assert KeyFieldsOf(keys, a)[f] != KeyFieldsOf(keys, b)[f];
    }
  }

  // ---------------------------------------------------------------------------
  // get_item and put_item over the bucket's objects

  /** `get_item`: `fault` is the error code the storage layer answers with
      instead of serving the request, if any. A `NoSuchKey` answer, or a
      missing object, gives an empty response; any other error propagates. */
  function GetOutcome(objects: map<ObjectName, Item>, prefix: string, keys: set<string>,
                      kwarg: Option<Value>, fault: Option<string>): (r: Result<GetResponse>)
    ensures Locate(prefix, keys, kwarg).Err? ==> r == Err(Locate(prefix, keys, kwarg).exc)
    ensures r.Ok? && r.value.item.Some? ==>
      Locate(prefix, keys, kwarg).Ok? && fault.None? && Locate(prefix, keys, kwarg).value in objects &&
      objects[Locate(prefix, keys, kwarg).value] == r.value.item.value
    ensures Locate(prefix, keys, kwarg).Ok? && fault.Some? ==>
      r == if fault.value == NoSuchKey then Ok(GetResponse(None)) else Err(StorageError(fault.value))
    ensures Locate(prefix, keys, kwarg).Ok? && fault.None? ==>
      r.Ok? && (r.value.item.Some? <==> Locate(prefix, keys, kwarg).value in objects)
  {
    match Locate(prefix, keys, kwarg)
    case Err(e) => Err(e)
    case Ok(name) =>
      match fault
      case Some(code) =>
        if code == NoSuchKey then Ok(GetResponse(None)) else Err(StorageError(code))
      case None =>
        if name in objects then Ok(GetResponse(Some(objects[name]))) else Ok(GetResponse(None))
  }

  /** `put_item`: the bucket's objects afterwards, the whole item stored under its name. */
  function PutOutcome(objects: map<ObjectName, Item>, prefix: string, keys: set<string>,
                      kwarg: Option<Value>, fault: Option<string>): (r: Result<map<ObjectName, Item>>)
    ensures Locate(prefix, keys, kwarg).Err? ==> r == Err(Locate(prefix, keys, kwarg).exc)
    ensures r.Ok? ==> forall n :: n in objects && n != Locate(prefix, keys, kwarg).value ==> n in r.value && r.value[n] == objects[n]
  {
    match Locate(prefix, keys, kwarg)
    case Err(e) => Err(e)
    case Ok(name) =>
      match fault
      case Some(code) => Err(StorageError(code))
      case None => Ok(objects[name := ItemArg(kwarg).value])
  }

  /** A put followed by a get with the same key fields returns the stored
      item unchanged, non-key fields included. */
  lemma PutThenGet(objects: map<ObjectName, Item>, prefix: string, keys: set<string>, item: Item, key: Item)
    requires keys <= item.Keys && keys <= key.Keys
    requires forall f :: f in keys ==> item[f] == key[f]
    ensures PutOutcome(objects, prefix, keys, Some(VDict(item)), None).Ok?
    ensures GetOutcome(PutOutcome(objects, prefix, keys, Some(VDict(item)), None).value,
                       prefix, keys, Some(VDict(key)), None)
            == Ok(GetResponse(Some(item)))
  {
    NameDependsOnlyOnKeyFields(prefix, keys, item, key);
  }

  /** A second put with the same key fields replaces the first: last write wins. */
  lemma LastWriteWins(objects: map<ObjectName, Item>, prefix: string, keys: set<string>, a: Item, b: Item)
    requires keys <= a.Keys && keys <= b.Keys
    requires forall f :: f in keys ==> a[f] == b[f]
    ensures var once := PutOutcome(objects, prefix, keys, Some(VDict(a)), None).value;
            PutOutcome(once, prefix, keys, Some(VDict(b)), None)
            == PutOutcome(objects, prefix, keys, Some(VDict(b)), None)
  {
    NameDependsOnlyOnKeyFields(prefix, keys, a, b);
    var n := Locate(prefix, keys, Some(VDict(b))).value;
    assert objects[n := a][n := b] == objects[n := b];
  }

  /** A get for an object never written is empty, not an error. */
  lemma NeverWrittenIsEmpty(objects: map<ObjectName, Item>, prefix: string, keys: set<string>, key: Item)
    requires keys <= key.Keys
    requires Locate(prefix, keys, Some(VDict(key))).value !in objects
    ensures GetOutcome(objects, prefix, keys, Some(VDict(key)), None) == Ok(GetResponse(None))
  {
  }

  /** Validation fails before any storage access: the outcome is the same
      whatever the bucket holds and however storage would answer. */
  lemma ValidationPrecedesStorage(o1: map<ObjectName, Item>, o2: map<ObjectName, Item>, prefix: string,
                                  keys: set<string>, kwarg: Option<Value>, f1: Option<string>, f2: Option<string>)
    requires Locate(prefix, keys, kwarg).Err?
    ensures GetOutcome(o1, prefix, keys, kwarg, f1) == GetOutcome(o2, prefix, keys, kwarg, f2)
    ensures PutOutcome(o1, prefix, keys, kwarg, f1) == PutOutcome(o2, prefix, keys, kwarg, f2)
  {
  }

  // ---------------------------------------------------------------------------
  // The table object

  class Table {
    const bucket: string
    const prefix: string
    const keys: set<string>
    /** The objects in the bucket (the store the S3 client reads and writes). */
    var objects: map<ObjectName, Item>

    /** `Table(bucket, prefix, keys)` over a bucket currently holding `stored`. */
    constructor (bucket: string, prefix: string, keyList: seq<string>, stored: map<ObjectName, Item>)
      ensures this.bucket == bucket && this.prefix == StripSlashes(prefix)
      ensures keys == set k | k in keyList
      ensures objects == stored
    {
      this.bucket := bucket;
      this.prefix := StripSlashes(prefix);
      this.keys := set k | k in keyList;
      objects := stored;
    }

    method GetItem(kwarg: Option<Value>, fault: Option<string>) returns (r: Result<GetResponse>)
      ensures r == GetOutcome(objects, prefix, keys, kwarg, fault)
    {
      var name := Locate(prefix, keys, kwarg);
      if name.Err? {
        return Err(name.exc);
      }
      var found: Option<Item>;
      if fault.Some? {
        if fault.value != NoSuchKey {
          return Err(StorageError(fault.value));
        }
        found := None;
      } else if name.value in objects {
        found := Some(objects[name.value]);
      } else {
        found := None;
      }
      r := Ok(GetResponse(found));
    }

    /** Returns `{}` on success. */
    method PutItem(kwarg: Option<Value>, fault: Option<string>) returns (r: Result<Item>)
      modifies this
      ensures PutOutcome(old(objects), prefix, keys, kwarg, fault).Ok? ==>
        r == Ok(map[]) && objects == PutOutcome(old(objects), prefix, keys, kwarg, fault).value
      ensures PutOutcome(old(objects), prefix, keys, kwarg, fault).Err? ==>
        r == Err(PutOutcome(old(objects), prefix, keys, kwarg, fault).exc) && objects == old(objects)
    {
      var name := Locate(prefix, keys, kwarg);
      if name.Err? {
        return Err(name.exc);
      }
      if fault.Some? {
        return Err(StorageError(fault.value));
      }
      objects := objects[name.value := ItemArg(kwarg).value];
      r := Ok(map[]);
    }
  }
}
