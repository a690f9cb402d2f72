/**
 The JSON forms of a row object, under the column names or under aliases: writing, reading back, and
 the validators that guard creation and update.
 */
module RegistrationJson {
  import opened Common
  import opened Records
  import opened RegistrationModel

  /**
   A JSON value: `JInt` is a 64-bit integer, `JNumber` any other number with the text it prints as, and
   `JOther` an array or an object.
   */
  datatype Json =
    | JNull
    | JBool(b: bool)
    | JInt(n: int)
    | JNumber(x: real, text: string)
    | JText(s: string)
    | JOther

  type JsonObject = map<string, Json>

  function JsonOf(cell: Cell): Json {
    match cell
    case Null => JNull
    case Int(n) => JInt(n)
    case Text(s) => JText(s)
  }

  // ---------------------------------------------------------------- writing

  /** Columns below `hi` under their aliases; an empty alias leaves its column out. */
  function JsonBelow(cells: seq<Cell>, aliases: seq<string>, hi: nat): JsonObject
    requires |cells| == 9 && |aliases| == 9 && hi <= 9
  {
    if hi == 0 then map[]
    else
      var json := JsonBelow(cells, aliases, hi - 1);
      if aliases[hi - 1] == "" then json else json[aliases[hi - 1] := JsonOf(cells[hi - 1])]
  }

  /** A vector of the wrong size is reported and ignored. */
  function Masqueraded(cells: seq<Cell>, aliases: seq<string>): JsonObject
    requires |cells| == 9
  {
    JsonBelow(cells, if |aliases| == 9 then aliases else COLUMN_NAMES, 9)
  }

  /** Writes column `c` as the member `name`; a null column becomes a null member. */
  method PutMember(r: Registrations, json: JsonObject, name: string, c: Column) returns (json': JsonObject)
    requires r.Valid()
    ensures json' == json[name := JsonOf(r.cells[c])]
  {
    match r.cells[c]
    case Int(n) => json' := json[name := JInt(n)];
    case Text(s) => json' := json[name := JText(s)];
    case Null => json' := json[name := JNull];
  }

  method Put(r: Registrations, json: JsonObject, aliases: seq<string>, c: Column) returns (json': JsonObject)
    requires r.Valid() && |aliases| == 9 && json == JsonBelow(r.cells, aliases, c)
    ensures json' == JsonBelow(r.cells, aliases, c + 1)
  {
    json' := json;
    if aliases[c] != "" {
      json' := PutMember(r, json, aliases[c], c);
    }
  }

  method ToMasqueradedJson(r: Registrations, aliases: seq<string>) returns (json: JsonObject)
    requires r.Valid()
    ensures json == Masqueraded(r.cells, aliases)
  {
    var names := if |aliases| == 9 then aliases else COLUMN_NAMES;
    json := map[];
    json := Put(r, json, names, ID);
    json := Put(r, json, names, CHAT_ID);
    json := Put(r, json, names, STATE);
    json := Put(r, json, names, MESSAGE_ID);
    json := Put(r, json, names, NAME);
    json := Put(r, json, names, COMPANY);
    json := Put(r, json, names, COMPANY_POSITION);
    json := Put(r, json, names, PHRASE);
    json := Put(r, json, names, TELEGRAM_NICKNAME);
  }

  /** The same step of the plain form, where the column's own name is written out. */
  method PutPlain(r: Registrations, json: JsonObject, name: string, c: Column, ghost names: seq<string>)
    returns (json': JsonObject)
    requires r.Valid() && |names| == 9 && name == names[c] && name != "" && json == JsonBelow(r.cells, names, c)
    ensures json' == JsonBelow(r.cells, names, c + 1)
  {
    json' := PutMember(r, json, name, c);
  }

  /** The plain form, under the names written in it, is the aliased form under the column names. */
  method ToJson(r: Registrations) returns (json: JsonObject)
    requires r.Valid()
    ensures json == Masqueraded(r.cells, COLUMN_NAMES)
  {
    NamesWritten();
    hide COLUMN_NAMES;
    json := PutPlain(r, map[], "id", ID, COLUMN_NAMES);
    json := PutPlain(r, json, "chat_id", CHAT_ID, COLUMN_NAMES);
    json := PutPlain(r, json, "state", STATE, COLUMN_NAMES);
    json := PutPlain(r, json, "message_id", MESSAGE_ID, COLUMN_NAMES);
    json := PutPlain(r, json, "name", NAME, COLUMN_NAMES);
    json := PutPlain(r, json, "company", COMPANY, COLUMN_NAMES);
    json := PutPlain(r, json, "company_position", COMPANY_POSITION, COLUMN_NAMES);
    json := PutPlain(r, json, "phrase", PHRASE, COLUMN_NAMES);
    json := PutPlain(r, json, "telegram_nickname", TELEGRAM_NICKNAME, COLUMN_NAMES);
  }

  /** The names written in the plain forms are the table's. */
  lemma NamesWritten()
    ensures |COLUMN_NAMES| == 9 && forall c: Column :: COLUMN_NAMES[c] != ""
    ensures COLUMN_NAMES[ID] == "id" && COLUMN_NAMES[CHAT_ID] == "chat_id" && COLUMN_NAMES[STATE] == "state"
    ensures COLUMN_NAMES[MESSAGE_ID] == "message_id" && COLUMN_NAMES[NAME] == "name"
    ensures COLUMN_NAMES[COMPANY] == "company" && COLUMN_NAMES[COMPANY_POSITION] == "company_position"
    ensures COLUMN_NAMES[PHRASE] == "phrase" && COLUMN_NAMES[TELEGRAM_NICKNAME] == "telegram_nickname"
  {
  }

  // ---------------------------------------------------------------- reading

  const INT64_BOUND: real := 9223372036854775808.0

  function Truncated(x: real): int {
    if x < 0.0 then -(-x).Floor else x.Floor
  }

  /** `asInt64`; `None` is the library's exception. */
  function AsInt64(v: Json): Option<int> {
    match v
    case JNull => Some(0)
    case JBool(b) => Some(if b then 1 else 0)
    case JInt(n) => Some(n)
    case JNumber(x, _) => if -INT64_BOUND <= x < INT64_BOUND then Some(Truncated(x)) else None
    case _ => None
  }

  /** `isInt64`: a number with a zero fraction will do. */
  predicate IsInt64(v: Json) {
    v.JInt? || (v.JNumber? && -INT64_BOUND <= v.x < INT64_BOUND && Truncated(v.x) as real == v.x)
  }

  /** `asString`; numbers and booleans convert to text. */
  function AsString(v: Json): Option<string> {
    match v
    case JNull => Some("")
    case JBool(b) => Some(if b then "true" else "false")
    case JInt(n) => Some(if n < 0 then "-" + Decimal(-n) else Decimal(n))
    case JNumber(_, text) => Some(text)
    case JText(s) => Some(s)
    case JOther => None
  }

  datatype Field = Unset | Read(cell: Cell) | Throws

  /** One column from the member with its alias. */
  function FieldOf(json: JsonObject, name: string, c: Column): Field {
    if name == "" || name !in json then Unset
    else if json[name] == JNull then Read(Null)
    else if c < NAME then
      match AsInt64(json[name])
      case Some(n) => Read(Int(n))
      case None => Throws
    else
      match AsString(json[name])
      case Some(s) => Read(Text(s))
      case None => Throws
  }

  function CellOf(field: Field): Cell {
    if field.Read? then field.cell else Null
  }

  function ReadCells(json: JsonObject, aliases: seq<string>, hi: nat): (cells: seq<Cell>)
    requires |aliases| == 9 && hi <= 9
    ensures |cells| == 9
    ensures forall c: Column :: cells[c] == if c < hi then CellOf(FieldOf(json, aliases[c], c)) else Null
  {
    seq(9, c requires 0 <= c < 9 => if c < hi then CellOf(FieldOf(json, aliases[c], c)) else Null)
  }

  function ReadDirty(json: JsonObject, aliases: seq<string>, hi: nat): (dirty: seq<bool>)
    requires |aliases| == 9 && hi <= 9
    ensures |dirty| == 9
    ensures forall c: Column :: dirty[c] == (c < hi && FieldOf(json, aliases[c], c).Read?)
  {
    seq(9, c requires 0 <= c < 9 => c < hi && FieldOf(json, aliases[c], c).Read?)
  }

  ghost predicate ThrowsBelow(json: JsonObject, aliases: seq<string>, hi: nat)
    requires |aliases| == 9 && hi <= 9
  {
    exists c: Column :: c < hi && FieldOf(json, aliases[c], c) == Throws
  }

  /** What construction from JSON under aliases gives: cells and dirty flags, or an exception. */
  ghost function FromMasqueraded(json: JsonObject, aliases: seq<string>): Option<(seq<Cell>, seq<bool>)> {
    if |aliases| != 9 then Some((seq(9, _ => Null), seq(9, _ => false)))
    else if ThrowsBelow(json, aliases, 9) then None
    else Some((ReadCells(json, aliases, 9), ReadDirty(json, aliases, 9)))
  }

  /** Columns below `hi` have been read into `r`. */
  ghost predicate TakenBelow(r: Registrations, json: JsonObject, aliases: seq<string>, hi: nat)
    requires |aliases| == 9 && hi <= 9
    reads r
  {
    r.Valid() && r.cells == ReadCells(json, aliases, hi) && r.dirty == ReadDirty(json, aliases, hi)
  }

  /** Reads member `name` into column `c`; false stands for the exception of a failed conversion. */
  method ReadMember(r: Registrations, json: JsonObject, name: string, c: Column) returns (ok: bool)
    requires r.Valid() && name != "" && name in json
    modifies r
    ensures ok <==> FieldOf(json, name, c) != Throws
    ensures ok ==> r.Valid() && r.dirty == old(r.dirty)
    ensures ok ==> r.cells == if json[name] == JNull then old(r.cells) else old(r.cells)[c := CellOf(FieldOf(json, name, c))]
  {
    ok := true;
    if json[name] != JNull {
      if c < NAME {
        var n := AsInt64(json[name]);
        ok := n.Some?;
        if ok {
          r.cells := r.cells[c := Int(n.value)];
        }
      } else {
        var s := AsString(json[name]);
        ok := s.Some?;
        if ok {
          r.cells := r.cells[c := Text(s.value)];
        }
      }
    }
  }

  /** Reads the next column, unless an earlier one has thrown. */
  method Take(ok: bool, r: Registrations, json: JsonObject, aliases: seq<string>, c: Column) returns (ok': bool)
    requires |aliases| == 9 && ok == !ThrowsBelow(json, aliases, c) && (ok ==> TakenBelow(r, json, aliases, c))
    modifies r
    ensures ok' == !ThrowsBelow(json, aliases, c + 1) && (ok' ==> TakenBelow(r, json, aliases, c + 1))
  {
    ok' := ok;
    if ok && aliases[c] != "" && aliases[c] in json {
      r.dirty := r.dirty[c := true];
      ok' := ReadMember(r, json, aliases[c], c);
    }
  }

  /** The aliased constructor; null stands for the exception of a failed conversion. */
  method FromMasqueradedJson(json: JsonObject, aliases: seq<string>) returns (r: Registrations?)
    ensures r == null <==> FromMasqueraded(json, aliases) == None
    ensures r != null ==> fresh(r) && r.Valid() && FromMasqueraded(json, aliases) == Some((r.cells, r.dirty))
  {
    var model := new Registrations();
    if |aliases| != 9 {
      return model;
    }
    var ok := Take(true, model, json, aliases, ID);
    ok := Take(ok, model, json, aliases, CHAT_ID);
    ok := Take(ok, model, json, aliases, STATE);
    ok := Take(ok, model, json, aliases, MESSAGE_ID);
    ok := Take(ok, model, json, aliases, NAME);
    ok := Take(ok, model, json, aliases, COMPANY);
    ok := Take(ok, model, json, aliases, COMPANY_POSITION);
    ok := Take(ok, model, json, aliases, PHRASE);
    ok := Take(ok, model, json, aliases, TELEGRAM_NICKNAME);
    r := if ok then model else null;
  }

  /** The same step of the plain constructor, where the column's own name is written out. */
  method TakePlain(ok: bool, r: Registrations, json: JsonObject, name: string, c: Column, ghost names: seq<string>)
    returns (ok': bool)
    requires |names| == 9 && name == names[c] && name != ""
    requires ok == !ThrowsBelow(json, names, c) && (ok ==> TakenBelow(r, json, names, c))
    modifies r
    ensures ok' == !ThrowsBelow(json, names, c + 1) && (ok' ==> TakenBelow(r, json, names, c + 1))
  {
    ok' := ok;
    if ok && name in json {
      r.dirty := r.dirty[c := true];
      ok' := ReadMember(r, json, name, c);
    }
  }

  /** The plain constructor, under the names written in it, is the aliased one under the column names. */
  method FromJson(json: JsonObject) returns (r: Registrations?)
    ensures r == null <==> FromMasqueraded(json, COLUMN_NAMES) == None
    ensures r != null ==> fresh(r) && r.Valid() && FromMasqueraded(json, COLUMN_NAMES) == Some((r.cells, r.dirty))
  {
    var model := new Registrations();
    NamesWritten();
    hide COLUMN_NAMES;
    var ok := TakePlain(true, model, json, "id", ID, COLUMN_NAMES);
    ok := TakePlain(ok, model, json, "chat_id", CHAT_ID, COLUMN_NAMES);
    ok := TakePlain(ok, model, json, "state", STATE, COLUMN_NAMES);
    ok := TakePlain(ok, model, json, "message_id", MESSAGE_ID, COLUMN_NAMES);
    ok := TakePlain(ok, model, json, "name", NAME, COLUMN_NAMES);
    ok := TakePlain(ok, model, json, "company", COMPANY, COLUMN_NAMES);
    ok := TakePlain(ok, model, json, "company_position", COMPANY_POSITION, COLUMN_NAMES);
    ok := TakePlain(ok, model, json, "phrase", PHRASE, COLUMN_NAMES);
    ok := TakePlain(ok, model, json, "telegram_nickname", TELEGRAM_NICKNAME, COLUMN_NAMES);
    r := if ok then model else null;
  }

  // ---------------------------------------------------------------- updating

  /** Updating keeps a column whose member is null, and never marks the id as set. */
  function UpdatedCells(cells: seq<Cell>, json: JsonObject, aliases: seq<string>, hi: nat): (r: seq<Cell>)
    requires |cells| == 9 && |aliases| == 9 && hi <= 9
    ensures |r| == 9
    ensures forall c: Column ::
      r[c] == (if c < hi && CellOf(FieldOf(json, aliases[c], c)) != Null then CellOf(FieldOf(json, aliases[c], c)) else cells[c])
  {
    seq(9, c requires 0 <= c < 9 =>
      if c < hi && CellOf(FieldOf(json, aliases[c], c)) != Null then CellOf(FieldOf(json, aliases[c], c)) else cells[c])
  }

  function UpdatedDirty(dirty: seq<bool>, json: JsonObject, aliases: seq<string>, hi: nat): (r: seq<bool>)
    requires |dirty| == 9 && |aliases| == 9 && hi <= 9
    ensures |r| == 9
    ensures forall c: Column :: r[c] == (dirty[c] || (ID < c < hi && FieldOf(json, aliases[c], c).Read?))
  {
    seq(9, c requires 0 <= c < 9 => dirty[c] || (ID < c < hi && FieldOf(json, aliases[c], c).Read?))
  }

  ghost predicate UpdatedBelow(r: Registrations, cells: seq<Cell>, dirty: seq<bool>, json: JsonObject, aliases: seq<string>, hi: nat)
    requires |cells| == 9 && |dirty| == 9 && |aliases| == 9 && hi <= 9
    reads r
  {
    r.Valid() && r.cells == UpdatedCells(cells, json, aliases, hi) && r.dirty == UpdatedDirty(dirty, json, aliases, hi)
  }

  method UpdateColumn(ok: bool, r: Registrations, json: JsonObject, aliases: seq<string>, c: Column,
                      ghost cells: seq<Cell>, ghost dirty: seq<bool>) returns (ok': bool)
    requires |cells| == 9 && |dirty| == 9 && |aliases| == 9
    requires ok == !ThrowsBelow(json, aliases, c) && (ok ==> UpdatedBelow(r, cells, dirty, json, aliases, c))
    modifies r
    ensures ok' == !ThrowsBelow(json, aliases, c + 1) && (ok' ==> UpdatedBelow(r, cells, dirty, json, aliases, c + 1))
  {
    ok' := ok;
    if ok && aliases[c] != "" && aliases[c] in json {
      if c != ID {
        r.dirty := r.dirty[c := true];
      }
      ok' := ReadMember(r, json, aliases[c], c);
    }
  }

  /** `updateByMasqueradedJson`, and `updateByJson` under the column names; false stands for the exception. */
  method UpdateByMasqueradedJson(r: Registrations, json: JsonObject, aliases: seq<string>) returns (ok: bool)
    requires r.Valid()
    modifies r
    ensures |aliases| != 9 ==> ok && r.Valid() && r.cells == old(r.cells) && r.dirty == old(r.dirty)
    ensures |aliases| == 9 ==> ok == !ThrowsBelow(json, aliases, 9)
    ensures |aliases| == 9 && ok ==> UpdatedBelow(r, old(r.cells), old(r.dirty), json, aliases, 9)
  {
    if |aliases| != 9 {
      return true;
    }
    ghost var cells, dirty := r.cells, r.dirty;
    ok := UpdateColumn(true, r, json, aliases, ID, cells, dirty);
    ok := UpdateColumn(ok, r, json, aliases, CHAT_ID, cells, dirty);
    ok := UpdateColumn(ok, r, json, aliases, STATE, cells, dirty);
    ok := UpdateColumn(ok, r, json, aliases, MESSAGE_ID, cells, dirty);
    ok := UpdateColumn(ok, r, json, aliases, NAME, cells, dirty);
    ok := UpdateColumn(ok, r, json, aliases, COMPANY, cells, dirty);
    ok := UpdateColumn(ok, r, json, aliases, COMPANY_POSITION, cells, dirty);
    ok := UpdateColumn(ok, r, json, aliases, PHRASE, cells, dirty);
    ok := UpdateColumn(ok, r, json, aliases, TELEGRAM_NICKNAME, cells, dirty);
  }

  // ---------------------------------------------------------------- round trip

  predicate Distinct(aliases: seq<string>) {
    |aliases| == 9 && forall c, d :: 0 <= c < d < 9 && aliases[c] != "" ==> aliases[c] != aliases[d]
  }

  /** The cells of the columns that have an alias. */
  function Aliased(cells: seq<Cell>, aliases: seq<string>): (r: seq<Cell>)
    requires |cells| == 9 && |aliases| == 9
    ensures |r| == 9 && forall c: Column :: r[c] == if aliases[c] == "" then Null else cells[c]
  {
    seq(9, c requires 0 <= c < 9 => if aliases[c] == "" then Null else cells[c])
  }

  /** Reading back restores every aliased column, nulls included, and leaves the others unset. */
  ghost predicate Restores(cells: seq<Cell>, aliases: seq<string>)
    requires |cells| == 9 && |aliases| == 9
  {
    FromMasqueraded(Masqueraded(cells, aliases), aliases)
      == Some((Aliased(cells, aliases), seq(9, c requires 0 <= c < 9 => aliases[c] != "")))
  }

  lemma {:induction false} MemberOf(cells: seq<Cell>, aliases: seq<string>, hi: nat, c: Column)
    requires |cells| == 9 && Distinct(aliases) && c < hi <= 9 && aliases[c] != ""
    ensures aliases[c] in JsonBelow(cells, aliases, hi) && JsonBelow(cells, aliases, hi)[aliases[c]] == JsonOf(cells[c])
  {
    if c < hi - 1 {
      MemberOf(cells, aliases, hi - 1, c);
    }
  }

  lemma DistinctRestores(cells: seq<Cell>, aliases: seq<string>)
    requires Typed(cells) && Distinct(aliases)
    ensures Restores(cells, aliases)
  {
    var json := Masqueraded(cells, aliases);
    forall c: Column
      ensures FieldOf(json, aliases[c], c) == if aliases[c] == "" then Unset else Read(cells[c])
    {
      if aliases[c] != "" {
        MemberOf(cells, aliases, 9, c);
      }
    }
    assert ReadCells(json, aliases, 9) == Aliased(cells, aliases);
    assert ReadDirty(json, aliases, 9) == seq(9, c requires 0 <= c < 9 => aliases[c] != "");
  }

  /** A row object whose columns `c` and `d` differ: one of them is null. */
  function OneSet(d: Column): (cells: seq<Cell>)
    ensures Typed(cells)
  {
    seq(9, k requires 0 <= k < 9 => if k != d then Null else if k < NAME then Int(1) else Text("x"))
  }

  lemma {:induction false} LastMember(cells: seq<Cell>, aliases: seq<string>, hi: nat, d: Column)
    requires |cells| == 9 && |aliases| == 9 && d < hi <= 9 && aliases[d] != ""
    requires forall k :: d < k < hi ==> aliases[k] != aliases[d]
    ensures aliases[d] in JsonBelow(cells, aliases, hi) && JsonBelow(cells, aliases, hi)[aliases[d]] == JsonOf(cells[d])
  {
    if d < hi - 1 {
      LastMember(cells, aliases, hi - 1, d);
    }
  }

  /** Two columns under one alias: the later one is written over the earlier. */
  lemma SharedAliasLoses(aliases: seq<string>, c: Column, d: Column)
    requires |aliases| == 9 && c < d && aliases[c] != "" && aliases[c] == aliases[d]
    requires forall k :: d < k < 9 ==> aliases[k] != aliases[d]
    ensures !Restores(OneSet(d), aliases)
  {
    var cells := OneSet(d);
    var json := Masqueraded(cells, aliases);
    LastMember(cells, aliases, 9, d);
    assert json[aliases[c]] == JsonOf(cells[d]) && cells[c] == Null;
    assert FieldOf(json, aliases[c], c) != Read(Null) && FieldOf(json, aliases[c], c) != Unset;
    if !ThrowsBelow(json, aliases, 9) {
      assert ReadCells(json, aliases, 9)[c] != Aliased(cells, aliases)[c];
    }
  }

  lemma LastWithAlias(aliases: seq<string>, c: Column, d: Column) returns (last: Column)
    requires |aliases| == 9 && c < d && aliases[c] == aliases[d]
    ensures d <= last && aliases[last] == aliases[d] && forall k :: last < k < 9 ==> aliases[k] != aliases[d]
  {
    last := d;
    var k := d + 1;
    while k < 9
      invariant d < k <= 9 && d <= last < k && aliases[last] == aliases[d]
      invariant forall j :: last < j < k ==> aliases[j] != aliases[d]
    {
      if aliases[k] == aliases[d] {
        last := k;
      }
      k := k + 1;
    }
  }

  /** Every row object survives the aliased round trip if and only if no alias is used twice. */
  lemma RoundTripIffDistinct(aliases: seq<string>)
    requires |aliases| == 9
    ensures (forall cells :: Typed(cells) ==> Restores(cells, aliases)) <==> Distinct(aliases)
  {
    if Distinct(aliases) {
      forall cells | Typed(cells) ensures Restores(cells, aliases) {
        DistinctRestores(cells, aliases);
      }
    } else {
      var c, d :| 0 <= c < d < 9 && aliases[c] != "" && aliases[c] == aliases[d];
      var last := LastWithAlias(aliases, c, d);
      SharedAliasLoses(aliases, c, last);
    }
  }

  // ---------------------------------------------------------------- validators

  /** `validJsonOfField`; `None` accepts. */
  function FieldError(c: Column, name: string, v: Json, isForCreation: bool): Option<string> {
    if c == ID then
      if isForCreation then Some("The automatic primary key cannot be set")
      else if v == JNull || IsInt64(v) then None
      else Some("Type error in the " + name + " field")
    else if v == JNull then Some("The " + name + " column cannot be null")
    else if (if c < NAME then IsInt64(v) else v.JText?) then None
    else Some("Type error in the " + name + " field")
  }

  /** The first complaint, in column order, from column `c` on. */
  function First(errors: Column -> Option<string>, c: nat): Option<string>
    requires c <= 9
    decreases 9 - c
  {
    if c == 9 then None else if errors(c).Some? then errors(c) else First(errors, c + 1)
  }

  lemma {:induction false} NoComplaint(errors: Column -> Option<string>, from: nat)
    requires from <= 9
    ensures First(errors, from) == None <==> forall c: Column :: from <= c ==> errors(c) == None
    decreases 9 - from
  {
    if from < 9 {
      NoComplaint(errors, from + 1);
    }
  }

  /** What creation asks of one column: chat and state must be there. */
  function CreationError(json: JsonObject, name: string, c: Column): Option<string> {
    if name == "" then None
    else if name in json then FieldError(c, name, json[name], true)
    else if c == CHAT_ID || c == STATE then Some("The " + name + " column cannot be null")
    else None
  }

  /** What an update asks of one column: the id must be there. */
  function UpdateError(json: JsonObject, name: string, c: Column): Option<string> {
    if name != "" && name in json then FieldError(c, name, json[name], false)
    else if c == ID then Some(NO_KEY)
    else None
  }

  const NO_KEY: string := "The value of primary key must be set in the json object for update"
  const BAD_VECTOR: string := "Bad masquerading vector"

  const CHAT_REQUIRED: string := "The chat_id column cannot be null"
  const STATE_REQUIRED: string := "The state column cannot be null"

  function CreationErrors(json: JsonObject, aliases: seq<string>): Column -> Option<string>
    requires |aliases| == 9
  {
    (c: Column) => CreationError(json, aliases[c], c)
  }

  function UpdateErrors(json: JsonObject, aliases: seq<string>): Column -> Option<string>
    requires |aliases| == 9
  {
    (c: Column) => UpdateError(json, aliases[c], c)
  }

  function ValidateMasqueradedForCreation(json: JsonObject, aliases: seq<string>): Option<string> {
    if |aliases| != 9 then Some(BAD_VECTOR) else First(CreationErrors(json, aliases), 0)
  }

  function ValidateMasqueradedForUpdate(json: JsonObject, aliases: seq<string>): Option<string> {
    if |aliases| != 9 then Some(BAD_VECTOR) else First(UpdateErrors(json, aliases), 0)
  }

  lemma ChatRequired()
    ensures "The " + "chat_id" + " column cannot be null" == CHAT_REQUIRED
  {
    assert "The " + "chat_id" == "The chat_id";
    assert CHAT_REQUIRED[..11] == "The chat_id";
    assert CHAT_REQUIRED[11..] == " column cannot be null";
    assert CHAT_REQUIRED == CHAT_REQUIRED[..11] + CHAT_REQUIRED[11..];
  }

  lemma StateRequired()
    ensures "The " + "state" + " column cannot be null" == STATE_REQUIRED
  {
    assert "The " + "state" == "The state";
    assert STATE_REQUIRED[..9] == "The state";
    assert STATE_REQUIRED[9..] == " column cannot be null";
    assert STATE_REQUIRED == STATE_REQUIRED[..9] + STATE_REQUIRED[9..];
  }

  /** The validator for creation, with its names and texts written out, gives the aliased one's verdict. */
  method ValidateJsonForCreation(json: JsonObject) returns (err: Option<string>)
    ensures err == ValidateMasqueradedForCreation(json, COLUMN_NAMES)
  {
    NamesWritten();
    ChatRequired();
    StateRequired();
    hide COLUMN_NAMES;
    hide FieldError;
    hide CHAT_REQUIRED;
    hide STATE_REQUIRED;
    ghost var errors := CreationErrors(json, COLUMN_NAMES);
    err := None;
    if "id" in json {
      err := FieldError(ID, "id", json["id"], true);
      if err.Some? {
        return;
      }
    }
    if "chat_id" in json {
      err := FieldError(CHAT_ID, "chat_id", json["chat_id"], true);
      if err.Some? {
        return;
      }
    } else {
      err := Some(CHAT_REQUIRED);
      return;
    }
    if "state" in json {
      err := FieldError(STATE, "state", json["state"], true);
      if err.Some? {
        return;
      }
    } else {
      err := Some(STATE_REQUIRED);
      return;
    }
    if "message_id" in json {
      err := FieldError(MESSAGE_ID, "message_id", json["message_id"], true);
      if err.Some? {
        return;
      }
    }
    if "name" in json {
      err := FieldError(NAME, "name", json["name"], true);
      if err.Some? {
        return;
      }
    }
    if "company" in json {
      err := FieldError(COMPANY, "company", json["company"], true);
      if err.Some? {
        return;
      }
    }
    if "company_position" in json {
      err := FieldError(COMPANY_POSITION, "company_position", json["company_position"], true);
      if err.Some? {
        return;
      }
    }
    if "phrase" in json {
      err := FieldError(PHRASE, "phrase", json["phrase"], true);
      if err.Some? {
        return;
      }
    }
    if "telegram_nickname" in json {
      err := FieldError(TELEGRAM_NICKNAME, "telegram_nickname", json["telegram_nickname"], true);
      if err.Some? {
        return;
      }
    }
  }

  /** The same of the validator for update. */
  method ValidateJsonForUpdate(json: JsonObject) returns (err: Option<string>)
    ensures err == ValidateMasqueradedForUpdate(json, COLUMN_NAMES)
  {
    NamesWritten();
    hide COLUMN_NAMES;
    hide FieldError;
    hide NO_KEY;
    ghost var errors := UpdateErrors(json, COLUMN_NAMES);
    assert forall c: Column :: errors(c) == UpdateError(json, COLUMN_NAMES[c], c);
    hide UpdateErrors;
    err := None;
    if "id" in json {
      err := FieldError(ID, "id", json["id"], false);
      if err.Some? {
        return;
      }
    } else {
      err := Some(NO_KEY);
      return;
    }
    if "chat_id" in json {
      err := FieldError(CHAT_ID, "chat_id", json["chat_id"], false);
      if err.Some? {
        return;
      }
    }
    if "state" in json {
      err := FieldError(STATE, "state", json["state"], false);
      if err.Some? {
        return;
      }
    }
    if "message_id" in json {
      err := FieldError(MESSAGE_ID, "message_id", json["message_id"], false);
      if err.Some? {
        return;
      }
    }
    if "name" in json {
      err := FieldError(NAME, "name", json["name"], false);
      if err.Some? {
        return;
      }
    }
    if "company" in json {
      err := FieldError(COMPANY, "company", json["company"], false);
      if err.Some? {
        return;
      }
    }
    if "company_position" in json {
      err := FieldError(COMPANY_POSITION, "company_position", json["company_position"], false);
      if err.Some? {
        return;
      }
    }
    if "phrase" in json {
      err := FieldError(PHRASE, "phrase", json["phrase"], false);
      if err.Some? {
        return;
      }
    }
    if "telegram_nickname" in json {
      err := FieldError(TELEGRAM_NICKNAME, "telegram_nickname", json["telegram_nickname"], false);
      if err.Some? {
        return;
      }
    }
  }

  predicate Listed(json: JsonObject, aliases: seq<string>, c: Column)
    requires |aliases| == 9
  {
    aliases[c] != "" && aliases[c] in json
  }

  /** Every listed column but the id has a value of the column's kind, and no null. */
  predicate RightKinds(json: JsonObject, aliases: seq<string>)
    requires |aliases| == 9
  {
    forall c: Column :: c != ID && Listed(json, aliases, c) ==>
      if c == CHAT_ID || c == STATE || c == MESSAGE_ID then IsInt64(json[aliases[c]]) else json[aliases[c]].JText?
  }

  /** Exactly which objects can create a row. */
  lemma CreationAccepts(json: JsonObject, aliases: seq<string>)
    ensures ValidateMasqueradedForCreation(json, aliases) == None <==>
      && |aliases| == 9
      && !Listed(json, aliases, ID)
      && (aliases[CHAT_ID] != "" ==> aliases[CHAT_ID] in json)
      && (aliases[STATE] != "" ==> aliases[STATE] in json)
      && RightKinds(json, aliases)
  {
    if |aliases| == 9 {
      var errors := CreationErrors(json, aliases);
      NoComplaint(errors, 0);
      assert forall c: Column :: errors(c) == CreationError(json, aliases[c], c);
      assert errors(ID) == None <==> !Listed(json, aliases, ID);
      assert errors(CHAT_ID) == None ==> aliases[CHAT_ID] != "" ==> aliases[CHAT_ID] in json;
      assert errors(STATE) == None ==> aliases[STATE] != "" ==> aliases[STATE] in json;
    }
  }

  /** Exactly which objects can update one. */
  lemma UpdateAccepts(json: JsonObject, aliases: seq<string>)
    ensures ValidateMasqueradedForUpdate(json, aliases) == None <==>
      && |aliases| == 9
      && Listed(json, aliases, ID)
      && (json[aliases[ID]] == JNull || IsInt64(json[aliases[ID]]))
      && RightKinds(json, aliases)
  {
    if |aliases| == 9 {
      var errors := UpdateErrors(json, aliases);
      NoComplaint(errors, 0);
      assert forall c: Column :: errors(c) == UpdateError(json, aliases[c], c);
      assert errors(ID) == UpdateError(json, aliases[ID], ID);
    }
  }

  /** What the database's NOT NULL constraints and key generation ask of a new row. */
  predicate Insertable(cells: seq<Cell>, dirty: seq<bool>)
    requires |cells| == 9 && |dirty| == 9
  {
    NoNullSet(cells, dirty) && dirty[CHAT_ID] && dirty[STATE] && !dirty[ID]
  }

  /**
   An object the creation validator lets through can be built without an exception, and what is
   built can be inserted exactly when the chat and the state have aliases.
   */
  lemma ValidatedIsInsertable(json: JsonObject, aliases: seq<string>)
    requires ValidateMasqueradedForCreation(json, aliases) == None
    ensures FromMasqueraded(json, aliases).Some?
    ensures var (cells, dirty) := FromMasqueraded(json, aliases).value;
      Insertable(cells, dirty) <==> aliases[CHAT_ID] != "" && aliases[STATE] != ""
  {
    NoComplaint(CreationErrors(json, aliases), 0);
    forall c: Column ensures FieldOf(json, aliases[c], c) == Unset
      || (c != ID && FieldOf(json, aliases[c], c).Read? && FieldOf(json, aliases[c], c).cell != Null)
    {
      assert CreationErrors(json, aliases)(c) == None;
    }
    assert CreationErrors(json, aliases)(CHAT_ID) == None;
    assert CreationErrors(json, aliases)(STATE) == None;
  }

  /** What saving an updated copy does to a stored column: a null member writes the copy's value back. */
  lemma UpdateStores(copy: Row, stored: Row, json: JsonObject, aliases: seq<string>, c: Column)
    requires |aliases| == 9 && !ThrowsBelow(json, aliases, 9) && c != ID
    ensures var cells := UpdatedCells(CellsOf(copy), json, aliases, 9);
      var dirty := UpdatedDirty(seq(9, _ => false), json, aliases, 9);
      && NoNullSet(cells, dirty) && Typed(cells)
      && Overlay(stored, Record(RowOf(cells), DirtySet(dirty))).Get(c)
         == match FieldOf(json, aliases[c], c)
            case Unset => stored.Get(c)
            case Read(Null) => copy.Get(c)
            case Read(cell) => cell
            case Throws => stored.Get(c)
  {
    var cells := UpdatedCells(CellsOf(copy), json, aliases, 9);
    var dirty := UpdatedDirty(seq(9, _ => false), json, aliases, 9);
    assert Typed(cells);
    assert c in DirtySet(dirty) <==> FieldOf(json, aliases[c], c).Read?;
    OverlaidCell(stored, cells, DirtySet(dirty), c);
  }

  lemma OverlaidCell(stored: Row, cells: seq<Cell>, dirty: set<Column>, c: Column)
    requires Typed(cells) && c != ID && (c in dirty ==> cells[c] != Null)
    ensures Overlay(stored, Record(RowOf(cells), dirty)).Get(c) == if c in dirty then cells[c] else stored.Get(c)
  {
  }

  /**
   A validated update stores exactly what it lists: listed columns take the JSON's values and the
   others keep the stored ones, however stale the copy it is applied to.
   */
  lemma ValidatedUpdateStoresWhatItLists(copy: Row, stored: Row, json: JsonObject, aliases: seq<string>, c: Column)
    requires ValidateMasqueradedForUpdate(json, aliases) == None && c != ID
    ensures !ThrowsBelow(json, aliases, 9) && aliases[ID] != "" && aliases[ID] in json
    ensures var cells := UpdatedCells(CellsOf(copy), json, aliases, 9);
      var dirty := UpdatedDirty(seq(9, _ => false), json, aliases, 9);
      Overlay(stored, Record(RowOf(cells), DirtySet(dirty))).Get(c)
      == if aliases[c] != "" && aliases[c] in json then FieldOf(json, aliases[c], c).cell else stored.Get(c)
  {
    NoComplaint(UpdateErrors(json, aliases), 0);
    forall d: Column
      ensures FieldOf(json, aliases[d], d) != Throws
      ensures d != ID && aliases[d] != "" && aliases[d] in json ==> json[aliases[d]] != JNull
    {
      assert UpdateErrors(json, aliases)(d) == None;
    }
    assert UpdateErrors(json, aliases)(ID) == None;
    UpdateStores(copy, stored, json, aliases, c);
  }

  /** Updating an empty object is constructing one, but for the id's flag. */
  lemma UpdateOfEmptyConstructs(json: JsonObject, aliases: seq<string>)
    requires |aliases| == 9 && !ThrowsBelow(json, aliases, 9)
    ensures FromMasqueraded(json, aliases).Some?
    ensures var (cells, dirty) := FromMasqueraded(json, aliases).value;
      && UpdatedCells(seq(9, _ => Null), json, aliases, 9) == cells
      && UpdatedDirty(seq(9, _ => false), json, aliases, 9) == dirty[ID := false]
  {
    var (cells, dirty) := FromMasqueraded(json, aliases).value;
    assert forall c: Column :: cells[c] == CellOf(FieldOf(json, aliases[c], c));
    assert UpdatedCells(seq(9, _ => Null), json, aliases, 9) == cells;
    assert UpdatedDirty(seq(9, _ => false), json, aliases, 9) == dirty[ID := false];
  }
}
