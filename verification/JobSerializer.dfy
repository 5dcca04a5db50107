/** Job data on its way into and out of the queues: instants become text and text of the right shape becomes instants.
    A tree is JSON plus instants; an object is a map, since neither direction looks at the order of its keys. */
module JobSerializer {
  import opened Prelude
  import IsoDate

  datatype Value =
    | Null
    | Bool(b: bool)
    | Num(n: real)
    | Str(s: string)
    | Date(time: IsoDate.Time)
    | Arr(items: seq<Value>)
    | Obj(fields: map<string, Value>)

  datatype Error = ValidationError | InvalidTimeValue

  /** Instants to text; an invalid instant anywhere makes the whole conversion throw. */
  function ConvertDates(x: Value): Result<Value, Error> {
    match x
    case Date(time) => if time.At? then Ok(Str(IsoDate.Text(time.ms))) else Err(InvalidTimeValue)
    case Arr(items) =>
      if forall i :: 0 <= i < |items| ==> ConvertDates(items[i]).Ok?
      then Ok(Arr(seq(|items|, i requires 0 <= i < |items| => ConvertDates(items[i]).value)))
      else Err(InvalidTimeValue)
    case Obj(fields) =>
      if forall k <- fields :: ConvertDates(fields[k]).Ok?
      then Ok(Obj(map k <- fields :: ConvertDates(fields[k]).value))
      else Err(InvalidTimeValue)
    case _ => Ok(x)
  }

  function ParseDates(x: Value, outOfRange: string -> IsoDate.Time): Value {
    match x
    case Str(s) => if IsoDate.IsoShaped(s) then Date(IsoDate.Parse(s, outOfRange)) else x
    // An instant is an object without keys of its own.
    case Date(_) => Obj(map[])
    case Arr(items) => Arr(seq(|items|, i requires 0 <= i < |items| => ParseDates(items[i], outOfRange)))
    case Obj(fields) => Obj(map k <- fields :: ParseDates(fields[k], outOfRange))
    case _ => x
  }

  predicate Falsy(x: Value) {
    x.Null? || x == Bool(false) || x == Num(0.0) || x == Str("")
  }

  function Serialize(x: Value): Result<Value, Error> {
    ConvertDates(x)
  }

  function Deserialize(x: Value, outOfRange: string -> IsoDate.Time): Result<Value, Error> {
    if Falsy(x) then Err(ValidationError) else Ok(ParseDates(x, outOfRange))
  }

  // ---- Validation ----

  /** The characters that trim removes: ECMA-262's white space and line terminators. */
  predicate TrimmedAway(c: char) {
    || '\U{0009}' <= c <= '\U{000D}' || c == ' ' || c == '\U{00A0}' || c == '\U{1680}'
    || '\U{2000}' <= c <= '\U{200A}' || c == '\U{2028}' || c == '\U{2029}' || c == '\U{202F}' || c == '\U{205F}'
    || c == '\U{3000}' || c == '\U{FEFF}'
  }

  predicate Blank(s: string) {
    forall c <- s :: TrimmedAway(c)
  }

  predicate ValidJobData(x: Value) {
    && x.Obj?
    && "deliveryId" in x.fields && x.fields["deliveryId"].Str? && !Blank(x.fields["deliveryId"].s)
    && "payload" in x.fields
  }

  // ---- What survives ----

  /** p holds of every value in the tree that is neither an array nor an object. */
  predicate Leaves(x: Value, p: Value -> bool) {
    match x
    case Arr(items) => forall i :: 0 <= i < |items| ==> Leaves(items[i], p)
    case Obj(fields) => forall k <- fields :: Leaves(fields[k], p)
    case _ => p(x)
  }

  predicate ValidInstant(v: Value) {
    v.Date? ==> v.time.At?
  }

  predicate DateFree(v: Value) {
    !v.Date?
  }

  /** A leaf that comes back from serialize and deserialize as it was. */
  predicate SurvivesStorage(v: Value) {
    match v
    case Str(s) => !IsoDate.IsoShaped(s)
    case Date(time) => time.At? && IsoDate.InCommonYears(time.ms)
    case _ => true
  }

  /** A leaf that comes back from deserialize and serialize as it was. */
  predicate SurvivesReading(v: Value) {
    match v
    case Str(s) => IsoDate.IsoShaped(s) ==> IsoDate.Canonical(s)
    case Date(_) => false
    case _ => true
  }

  lemma {:induction false} SerializeSucceeds(x: Value)
    ensures Serialize(x).Ok? <==> Leaves(x, ValidInstant)
  {
    match x
    case Arr(items) =>
      forall i | 0 <= i < |items|
        ensures Serialize(items[i]).Ok? <==> Leaves(items[i], ValidInstant)
      {
        SerializeSucceeds(items[i]);
      }
    case Obj(fields) =>
      forall k <- fields
        ensures Serialize(fields[k]).Ok? <==> Leaves(fields[k], ValidInstant)
      {
        SerializeSucceeds(fields[k]);
      }
    case _ =>
  }

  /** Every instant is gone from what is stored. */
  lemma {:induction false} SerializedIsDateFree(x: Value)
    requires Serialize(x).Ok?
    ensures Leaves(Serialize(x).value, DateFree)
  {
    match x
    case Arr(items) =>
      forall i | 0 <= i < |items|
        ensures Leaves(Serialize(items[i]).value, DateFree)
      {
        SerializedIsDateFree(items[i]);
      }
    case Obj(fields) =>
      forall k <- fields
        ensures Leaves(Serialize(fields[k]).value, DateFree)
      {
        SerializedIsDateFree(fields[k]);
      }
    case _ =>
  }

  ghost predicate StorageKeeps(x: Value, outOfRange: string -> IsoDate.Time) {
    Serialize(x).Ok? && ParseDates(Serialize(x).value, outOfRange) == x
  }

  lemma StorageKeepsLeaf(v: Value, outOfRange: string -> IsoDate.Time)
    requires !v.Arr? && !v.Obj?
    ensures StorageKeeps(v, outOfRange) <==> SurvivesStorage(v)
  {
    if v.Date? && v.time.At? {
      IsoDate.ShapedInCommonYears(v.time.ms);
      if IsoDate.InCommonYears(v.time.ms) {
        IsoDate.ParseOfText(v.time.ms, outOfRange);
      }
    }
  }

  lemma StorageKeepsItems(items: seq<Value>, outOfRange: string -> IsoDate.Time)
    ensures StorageKeeps(Arr(items), outOfRange) <==> forall i :: 0 <= i < |items| ==> StorageKeeps(items[i], outOfRange)
  {
    var x := Arr(items);
    if Serialize(x).Ok? {
      var back := ParseDates(Serialize(x).value, outOfRange).items;
      assert forall i :: 0 <= i < |items| ==> back[i] == ParseDates(Serialize(items[i]).value, outOfRange);
      assert back == items <==> forall i :: 0 <= i < |items| ==> back[i] == items[i];
    }
  }

  lemma StorageKeepsFields(fields: map<string, Value>, outOfRange: string -> IsoDate.Time)
    ensures StorageKeeps(Obj(fields), outOfRange) <==> forall k <- fields :: StorageKeeps(fields[k], outOfRange)
  {
    var x := Obj(fields);
    if Serialize(x).Ok? {
      var back := ParseDates(Serialize(x).value, outOfRange).fields;
      assert back.Keys == fields.Keys;
      assert forall k <- fields :: back[k] == ParseDates(Serialize(fields[k]).value, outOfRange);
      assert back == fields <==> forall k <- fields :: back[k] == fields[k];
    }
  }

  /** Writing a job and reading it back gives the same tree exactly when no string in it has the shape of an instant
      and every instant is a valid one of the years 0 to 9999. */
  lemma {:induction false} DeserializeSerialize(x: Value, outOfRange: string -> IsoDate.Time)
    ensures StorageKeeps(x, outOfRange) <==> Leaves(x, SurvivesStorage)
  {
    match x
    case Arr(items) =>
      forall i | 0 <= i < |items|
        ensures StorageKeeps(items[i], outOfRange) <==> Leaves(items[i], SurvivesStorage)
      {
        DeserializeSerialize(items[i], outOfRange);
      }
      StorageKeepsItems(items, outOfRange);
    case Obj(fields) =>
      forall k <- fields
        ensures StorageKeeps(fields[k], outOfRange) <==> Leaves(fields[k], SurvivesStorage)
      {
        DeserializeSerialize(fields[k], outOfRange);
      }
      StorageKeepsFields(fields, outOfRange);
    case _ => StorageKeepsLeaf(x, outOfRange);
  }

  ghost predicate ReadingKeeps(j: Value, outOfRange: string -> IsoDate.Time) {
    Serialize(ParseDates(j, outOfRange)) == Ok(j)
  }

  /** Reading a stored job and writing it again gives the same tree exactly when it holds no instant and each of its
      strings that has the shape of one has every field in range. */
  lemma {:induction false} SerializeDeserialize(j: Value, outOfRange: string -> IsoDate.Time)
    ensures ReadingKeeps(j, outOfRange) <==> Leaves(j, SurvivesReading)
  {
    match j
    case Arr(items) =>
      forall i | 0 <= i < |items|
        ensures ReadingKeeps(items[i], outOfRange) <==> Leaves(items[i], SurvivesReading)
      {
        SerializeDeserialize(items[i], outOfRange);
      }
      var parsed := ParseDates(j, outOfRange);
      if Serialize(parsed).Ok? {
        var back := Serialize(parsed).value.items;
        assert forall i :: 0 <= i < |items| ==> Serialize(ParseDates(items[i], outOfRange)) == Ok(back[i]);
        assert back == items <==> forall i :: 0 <= i < |items| ==> back[i] == items[i];
      }
    case Obj(fields) =>
      forall k <- fields
        ensures ReadingKeeps(fields[k], outOfRange) <==> Leaves(fields[k], SurvivesReading)
      {
        SerializeDeserialize(fields[k], outOfRange);
      }
      var parsed := ParseDates(j, outOfRange);
      if Serialize(parsed).Ok? {
        var back := Serialize(parsed).value.fields;
        assert back.Keys == fields.Keys;
        assert forall k <- fields :: Serialize(ParseDates(fields[k], outOfRange)) == Ok(back[k]);
        assert back == fields <==> forall k <- fields :: back[k] == fields[k];
      }
    case Str(s) =>
      if IsoDate.IsoShaped(s) {
        IsoDate.TextOfParse(s, outOfRange);
      }
    case _ =>
  }
}
