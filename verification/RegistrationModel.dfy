/** The row object: nullable columns, one dirty flag per column, and the SQL it produces. */
module RegistrationModel {
  import opened Common
  import opened FormStates
  import opened Records

  const TABLE_NAME := "registrations"

  predicate Typed(cells: seq<Cell>) {
    |cells| == 9 && forall c: Column :: cells[c].Null? || (if c < NAME then cells[c].Int? else cells[c].Text?)
  }

  /** The value getters: a null column reads as 0 or as the empty string. */
  function IntOf(cell: Cell): int {
    if cell.Int? then cell.n else 0
  }

  function TextOf(cell: Cell): string {
    if cell.Text? then cell.s else ""
  }

  function RowOf(cells: seq<Cell>): Row
    requires |cells| == 9
  {
    Row(IntOf(cells[ID]), IntOf(cells[CHAT_ID]), IntOf(cells[STATE]), IntOf(cells[MESSAGE_ID]), TextOf(cells[NAME]),
      TextOf(cells[COMPANY]), TextOf(cells[COMPANY_POSITION]), TextOf(cells[PHRASE]), TextOf(cells[TELEGRAM_NICKNAME]))
  }

  function CellsOf(row: Row): (cells: seq<Cell>)
    ensures Typed(cells) && RowOf(cells) == row && forall c: Column :: !cells[c].Null?
  {
    seq(9, c requires 0 <= c < 9 => row.Get(c))
  }

  /** The dirty columns below `hi`, in column order; the primary key is never among them. */
  function DirtyBelow(dirty: seq<bool>, hi: nat): (cols: seq<Column>)
    requires |dirty| == 9 && 1 <= hi <= 9
    ensures forall c: Column :: c in cols <==> 1 <= c < hi && dirty[c]
  {
    if hi == 1 then []
    else if dirty[hi - 1] then DirtyBelow(dirty, hi - 1) + [hi - 1]
    else DirtyBelow(dirty, hi - 1)
  }

  /** Some column with a default, below `hi`, is not set. */
  predicate UnsetBelow(dirty: seq<bool>, hi: nat)
    requires |dirty| == 9 && hi <= 9
  {
    exists c: Column :: MESSAGE_ID <= c < hi && !dirty[c]
  }

  function Names(cols: seq<Column>): (names: seq<string>)
    ensures |names| == |cols| && forall k :: 0 <= k < |cols| ==> names[k] == COLUMN_NAMES[cols[k]]
  {
    seq(|cols|, k requires 0 <= k < |cols| => COLUMN_NAMES[cols[k]])
  }

  function CellsAt(cells: seq<Cell>, cols: seq<Column>): (args: seq<Cell>)
    requires |cells| == 9
    ensures |args| == |cols| && forall k :: 0 <= k < |cols| ==> args[k] == cells[cols[k]]
  {
    seq(|cols|, k requires 0 <= k < |cols| => cells[cols[k]])
  }

  // ---------------------------------------------------------------- insert statements

  datatype InsertStatement = InsertStatement(table: string, columns: seq<string>, placeholders: nat)

  predicate NameChar(ch: char) {
    'a' <= ch <= 'z' || ch == '_'
  }

  predicate IsName(s: string) {
    s != "" && forall k :: 0 <= k < |s| ==> NameChar(s[k])
  }

  /** How many characters at the start of `s` belong to a name. */
  function NameLength(s: string): (n: nat)
    ensures n <= |s|
  {
    if s != "" && NameChar(s[0]) then 1 + NameLength(s[1..]) else 0
  }

  /** Reads a non-empty comma-separated list of names up to its closing parenthesis. */
  function ParseNames(s: string): Option<(seq<string>, string)> {
    var n := NameLength(s);
    if n == 0 || n == |s| then None
    else if s[n] == ')' then Some(([s[..n]], s[n + 1..]))
    else if s[n] != ',' then None
    else match ParseNames(s[n + 1..])
      case None => None
      case Some((names, rest)) => Some(([s[..n]] + names, rest))
  }

  /** Reads a non-empty comma-separated list of placeholders up to its closing parenthesis. */
  function ParseMarks(s: string): Option<(nat, string)> {
    if |s| < 2 || s[0] != '?' then None
    else if s[1] == ')' then Some((1, s[2..]))
    else if s[1] != ',' then None
    else match ParseMarks(s[2..])
      case None => None
      case Some((n, rest)) => Some((n + 1, rest))
  }

  /** SQLite's `insert into T (c, ...) values (?, ...)`, which wants at least one column. */
  function ParseInsert(sql: string): Option<InsertStatement> {
    match Skip(sql, "insert into ")
    case None => None
    case Some(s) =>
      var n := NameLength(s);
      match Skip(s[n..], " (")
      case None => None
      case Some(lists) =>
        match ParseLists(lists)
        case None => None
        case Some((names, marks)) => Some(InsertStatement(s[..n], names, marks))
  }

  /** Each name followed by a comma, as the statement is built. */
  function Commas(names: seq<string>): string {
    if names == [] then "" else Commas(names[..|names| - 1]) + names[|names| - 1] + ","
  }

  function Marks(n: nat): (s: string)
    ensures |s| == 2 * n
  {
    if n == 0 then "" else Marks(n - 1) + "?,"
  }

  function ListsText(names: seq<string>): string {
    if names == [] then ") values (" + ")"
    else
      var listed := Commas(names);
      var marks := Marks(|names|);
      listed[..|listed| - 1] + ")" + (" values (" + (marks[..|marks| - 1] + ")"))
  }

  /** The statement text for a list of columns. */
  function InsertText(names: seq<string>): string {
    "insert into " + (TABLE_NAME + (" (" + ListsText(names)))
  }

  lemma CommasSnoc(head: string, names: seq<string>, name: string)
    ensures head + Commas(names + [name]) == head + Commas(names) + name + ","
  {
    assert (names + [name])[..|names|] == names;
    assert head + (Commas(names) + name + ",") == head + Commas(names) + name + ",";
  }

  lemma NamesSnoc(cols: seq<Column>, c: Column)
    ensures Names(cols + [c]) == Names(cols) + [COLUMN_NAMES[c]]
  {
  }

  lemma {:induction false} CommasEnd(names: seq<string>)
    requires names != []
    ensures var s := Commas(names); s != "" && s[|s| - 1] == ','
  {
  }

  lemma {:induction false} CommasCons(name: string, names: seq<string>)
    ensures Commas([name] + names) == name + "," + Commas(names)
  {
    if names == [] {
      assert [name] + names == [name];
      assert Commas([name]) == Commas([]) + name + ",";
    } else {
      assert ([name] + names)[..|names|] == [name] + names[..|names| - 1];
      CommasCons(name, names[..|names| - 1]);
    }
  }

  lemma {:induction false} MarksCons(n: nat)
    ensures Marks(n + 1) == "?," + Marks(n)
  {
    if n > 0 {
      MarksCons(n - 1);
    } else {
      assert Marks(1) == "?,";
    }
  }

  lemma {:induction false} NameLengthAt(name: string, rest: string)
    requires forall k :: 0 <= k < |name| ==> NameChar(name[k])
    requires rest == "" || !NameChar(rest[0])
    ensures NameLength(name + rest) == |name|
  {
    if name != "" {
      assert (name + rest)[1..] == name[1..] + rest;
      NameLengthAt(name[1..], rest);
    } else {
      assert name + rest == rest;
    }
  }

  /** One name of a list, read off the front. */
  lemma ParseOneName(name: string, rest: string)
    requires IsName(name)
    ensures ParseNames(name + ")" + rest) == Some(([name], rest))
    ensures ParseNames(name + "," + rest) == match ParseNames(rest)
      case None => None
      case Some((names, after)) => Some(([name] + names, after))
  {
    var last := name + ")" + rest;
    assert last == name + (")" + rest);
    NameLengthAt(name, ")" + rest);
    assert last[..|name|] == name && last[|name| + 1..] == rest;
    var more := name + "," + rest;
    assert more == name + ("," + rest);
    NameLengthAt(name, "," + rest);
    assert more[..|name|] == name && more[|name| + 1..] == rest;
  }

  lemma {:induction false} ParseNamesUndo(names: seq<string>, rest: string)
    requires names != [] && forall k :: 0 <= k < |names| ==> IsName(names[k])
    ensures Commas(names) != ""
    ensures ParseNames(Commas(names)[..|Commas(names)| - 1] + ")" + rest) == Some((names, rest))
  {
    var head, tail := names[0], names[1..];
    assert names == [head] + tail;
    CommasCons(head, tail);
    var text := Commas(names)[..|Commas(names)| - 1] + ")" + rest;
    if tail == [] {
      assert names == [head] && Commas(tail) == "";
      assert text == head + ")" + rest;
      ParseOneName(head, rest);
    } else {
      ParseNamesUndo(tail, rest);
      var inner := Commas(tail)[..|Commas(tail)| - 1] + ")" + rest;
      assert text == head + "," + inner;
      ParseOneName(head, inner);
    }
  }

  lemma {:induction false} ParseMarksUndo(n: nat, rest: string)
    requires n > 0
    ensures ParseMarks(Marks(n)[..2 * n - 1] + ")" + rest) == Some((n, rest))
  {
    var text := Marks(n)[..2 * n - 1] + ")" + rest;
    MarksCons(n - 1);
    if n == 1 {
      assert text == "?)" + rest;
      assert text[2..] == rest;
    } else {
      ParseMarksUndo(n - 1, rest);
      var inner := Marks(n - 1)[..2 * (n - 1) - 1] + ")" + rest;
      assert text == "?," + inner;
      assert text[2..] == inner;
    }
  }

  /** The part of the statement after its opening parenthesis. */
  function ParseLists(s: string): Option<(seq<string>, nat)> {
    match ParseNames(s)
    case None => None
    case Some((names, rest)) =>
      match Skip(rest, " values (")
      case None => None
      case Some(rest') =>
        match ParseMarks(rest')
        case None => None
        case Some((marks, end)) => if end == "" && marks == |names| then Some((names, marks)) else None
  }

  function ClosedNames(names: seq<string>): string {
    if names == [] then ") values (" else Commas(names)[..|Commas(names)| - 1] + ")" + " values ("
  }

  function ClosedMarks(n: nat): string {
    (if n == 0 then "" else Marks(n)[..2 * n - 1]) + ")"
  }

  lemma InsertTextFlat(names: seq<string>)
    ensures InsertText(names) == "insert into " + TABLE_NAME + " (" + ClosedNames(names) + ClosedMarks(|names|)
  {
    if names != [] {
      Regroup("insert into ", TABLE_NAME, " (", Commas(names)[..|Commas(names)| - 1], " values (",
        Marks(|names|)[..2 * |names| - 1]);
    } else {
      RegroupEmpty("insert into ", TABLE_NAME, " (", ") values (");
    }
  }

  lemma RegroupEmpty(a: string, b: string, c: string, d: string)
    ensures a + b + c + d + ("" + ")") == a + (b + (c + (d + ")")))
  {
  }

  /** Replacing the last comma closes the list. */
  lemma CloseList(head: string, listed: string)
    requires listed != "" && listed[|listed| - 1] == ','
    ensures var s := head + listed; s[|s| - 1 := ')'] == head + listed[..|listed| - 1] + ")"
  {
  }

  lemma TrimList(head: string, marks: string)
    requires marks != ""
    ensures var s := head + marks; s[..|s| - 1] == head + marks[..|marks| - 1]
  {
  }

  lemma Regroup(a: string, b: string, c: string, listed: string, d: string, marks: string)
    ensures a + b + c + (listed + ")" + d) + (marks + ")") == a + (b + (c + (listed + ")" + (d + (marks + ")")))))
  {
  }

  lemma EmptyListsText()
    ensures ParseLists(ListsText([])) == None
  {
    var text := ") values (" + ")";
    assert text[0] == ')' && NameLength(text) == 0;
  }

  lemma ListsTextParses(names: seq<string>)
    requires names != [] && forall k :: 0 <= k < |names| ==> IsName(names[k])
    ensures ParseLists(ListsText(names)) == Some((names, |names|))
  {
    hide ParseNames;
    hide ParseMarks;
    hide Skip;
    hide Commas;
    var marks := Marks(|names|)[..2 * |names| - 1] + ")";
    MarksRead(|names|);
    SkipAppended(" values (", marks);
    ParseNamesUndo(names, " values (" + marks);
  }

  lemma MarksRead(n: nat)
    requires n > 0
    ensures ParseMarks(Marks(n)[..2 * n - 1] + ")") == Some((n, ""))
  {
    ParseMarksUndo(n, "");
    assert Marks(n)[..2 * n - 1] + ")" + "" == Marks(n)[..2 * n - 1] + ")";
  }

  /** The statement is well formed exactly when it names a column; then it lists just those columns. */
  lemma InsertTextParses(names: seq<string>)
    requires forall k :: 0 <= k < |names| ==> IsName(names[k])
    ensures ParseInsert(InsertText(names))
      == if names == [] then None else Some(InsertStatement("registrations", names, |names|))
  {
    var lists := ListsText(names);
    var rest := " (" + lists;
    SkipAppended("insert into ", TABLE_NAME + rest);
    TableNameRead(rest);
    SkipAppended(" (", lists);
    if names == [] {
      EmptyListsText();
    } else {
      ListsTextParses(names);
    }
  }

  lemma TableNameRead(rest: string)
    requires rest != "" && !NameChar(rest[0])
    ensures NameLength(TABLE_NAME + rest) == |TABLE_NAME|
    ensures (TABLE_NAME + rest)[|TABLE_NAME|..] == rest && (TABLE_NAME + rest)[..|TABLE_NAME|] == TABLE_NAME
  {
    NameLengthAt(TABLE_NAME, rest);
  }

  // ---------------------------------------------------------------- assignments by name

  /** `set name = cell` on a stored row. */
  function Assign(row: Row, name: string, cell: Cell): Row {
    if name == "chat_id" then row.(chatId := IntOf(cell))
    else if name == "state" then row.(state := IntOf(cell))
    else if name == "message_id" then row.(messageId := IntOf(cell))
    else if name == "name" then row.(name := TextOf(cell))
    else if name == "company" then row.(company := TextOf(cell))
    else if name == "company_position" then row.(companyPosition := TextOf(cell))
    else if name == "phrase" then row.(phrase := TextOf(cell))
    else if name == "telegram_nickname" then row.(telegramNickname := TextOf(cell))
    else row
  }

  /** Binds the arguments to the column names, position by position. */
  function AssignAll(row: Row, names: seq<string>, args: seq<Cell>): Row
    requires |names| == |args|
  {
    if names == [] then row
    else Assign(AssignAll(row, names[..|names| - 1], args[..|args| - 1]), names[|names| - 1], args[|args| - 1])
  }

  /** The columns a statement sets carry no null. */
  predicate NoNullSet(cells: seq<Cell>, dirty: seq<bool>)
    requires |cells| == 9 && |dirty| == 9
  {
    forall c: Column :: c != ID && dirty[c] ==> !cells[c].Null?
  }

  function DirtySet(dirty: seq<bool>): set<Column>
    requires |dirty| == 9
  {
    set c: Column | c < 9 && dirty[c]
  }

  lemma AssignColumn(row: Row, c: Column, cell: Cell, d: Column)
    requires 1 <= c && if c < NAME then cell.Int? else cell.Text?
    ensures Assign(row, COLUMN_NAMES[c], cell).Get(d) == if d == c then cell else row.Get(d)
  {
  }

  /** Binding one more column. */
  lemma AssignAllSnoc(row: Row, cells: seq<Cell>, cols: seq<Column>, c: Column)
    requires |cells| == 9
    ensures AssignAll(row, Names(cols + [c]), CellsAt(cells, cols + [c]))
      == Assign(AssignAll(row, Names(cols), CellsAt(cells, cols)), COLUMN_NAMES[c], cells[c])
  {
    assert Names(cols + [c])[..|cols|] == Names(cols);
    assert CellsAt(cells, cols + [c])[..|cols|] == CellsAt(cells, cols);
  }

  lemma {:induction false} AssignedColumns(row: Row, cells: seq<Cell>, dirty: seq<bool>, hi: nat, d: Column)
    requires Typed(cells) && |dirty| == 9 && 1 <= hi <= 9
    requires NoNullSet(cells, dirty)
    ensures var cols := DirtyBelow(dirty, hi);
      AssignAll(row, Names(cols), CellsAt(cells, cols)).Get(d) == if d in cols then cells[d] else row.Get(d)
  {
    var cols := DirtyBelow(dirty, hi);
    if hi == 1 {
      assert Names(cols) == [];
    } else {
      var c: Column := hi - 1;
      var fewer := DirtyBelow(dirty, c);
      AssignedColumns(row, cells, dirty, c, d);
      if dirty[c] {
        AssignAllSnoc(row, cells, fewer, c);
        AssignColumn(AssignAll(row, Names(fewer), CellsAt(cells, fewer)), c, cells[c], d);
      }
    }
  }

  lemma SameColumns(a: Row, b: Row)
    requires forall c: Column :: a.Get(c) == b.Get(c)
    ensures a == b
  {
    assert a.Get(ID) == b.Get(ID) && a.Get(CHAT_ID) == b.Get(CHAT_ID) && a.Get(STATE) == b.Get(STATE);
    assert a.Get(MESSAGE_ID) == b.Get(MESSAGE_ID) && a.Get(NAME) == b.Get(NAME) && a.Get(COMPANY) == b.Get(COMPANY);
    assert a.Get(COMPANY_POSITION) == b.Get(COMPANY_POSITION) && a.Get(PHRASE) == b.Get(PHRASE);
    assert a.Get(TELEGRAM_NICKNAME) == b.Get(TELEGRAM_NICKNAME);
  }

  /** Binding the update's arguments by position overlays exactly the columns that were set. */
  lemma UpdateBindsOverlay(row: Row, cells: seq<Cell>, dirty: seq<bool>)
    requires Typed(cells) && |dirty| == 9 && NoNullSet(cells, dirty)
    ensures var cols := DirtyBelow(dirty, 9);
      AssignAll(row, Names(cols), CellsAt(cells, cols)) == Overlay(row, Record(RowOf(cells), DirtySet(dirty)))
  {
    var cols := DirtyBelow(dirty, 9);
    var bound := AssignAll(row, Names(cols), CellsAt(cells, cols));
    var laid := Overlay(row, Record(RowOf(cells), DirtySet(dirty)));
    forall c: Column ensures bound.Get(c) == laid.Get(c) {
      AssignedColumns(row, cells, dirty, 9, c);
    }
    SameColumns(bound, laid);
  }

  // ---------------------------------------------------------------- the class

  class Registrations {
    var cells: seq<Cell>
    var dirty: seq<bool>

    ghost predicate Valid()
      reads this
    {
      Typed(cells) && |dirty| == 9
    }

    /** The copy this object stands for. */
    ghost function View(): Record
      reads this
      requires Valid()
    {
      Record(RowOf(cells), DirtySet(dirty))
    }

    constructor ()
      ensures Valid() && cells == seq(9, _ => Null) && dirty == seq(9, _ => false)
    {
      cells := seq(9, _ => Null);
      dirty := seq(9, _ => false);
    }

    /** From a row of a query result: the columns' values, and no dirty flag. */
    constructor FromRow(row: Row)
      ensures Valid() && cells == CellsOf(row) && View() == Load(row)
    {
      cells := CellsOf(row);
      dirty := seq(9, _ => false);
    }

    method Set(c: Column, cell: Cell)
      requires Valid() && if c < NAME then cell.Int? else cell.Text?
      modifies this
      ensures Valid() && cells == old(cells)[c := cell] && dirty == old(dirty)[c := true]
      ensures DirtySet(dirty) == old(DirtySet(dirty)) + {c}
    {
      cells := cells[c := cell];
      dirty := dirty[c := true];
    }

    method SetChatId(chatId: int)
      requires Valid()
      modifies this
      ensures Valid() && cells == old(cells)[CHAT_ID := Int(chatId)] && dirty == old(dirty)[CHAT_ID := true]
    {
      Set(CHAT_ID, Int(chatId));
    }

    method SetState(state: int)
      requires Valid()
      modifies this
      ensures Valid() && cells == old(cells)[STATE := Int(state)] && dirty == old(dirty)[STATE := true]
      ensures View() == old(View()).SetState(state)
    {
      Set(STATE, Int(state));
    }

    method SetMessageId(messageId: int)
      requires Valid()
      modifies this
      ensures Valid() && cells == old(cells)[MESSAGE_ID := Int(messageId)] && dirty == old(dirty)[MESSAGE_ID := true]
      ensures View() == old(View()).SetMessageId(messageId)
    {
      Set(MESSAGE_ID, Int(messageId));
    }

    method SetTelegramNickname(nickname: string)
      requires Valid()
      modifies this
      ensures Valid() && cells == old(cells)[TELEGRAM_NICKNAME := Text(nickname)]
      ensures dirty == old(dirty)[TELEGRAM_NICKNAME := true]
    {
      Set(TELEGRAM_NICKNAME, Text(nickname));
    }

    /** The setters of the four answers: name, company, company position and phrase. */
    method SetAnswer(s: RegistrationState, text: string)
      requires Valid() && s != Completed
      modifies this
      ensures Valid() && cells == old(cells)[AnswerColumn(s) := Text(text)] && dirty == old(dirty)[AnswerColumn(s) := true]
      ensures View() == old(View()).SetAnswer(s, text)
    {
      Set(AnswerColumn(s), Text(text));
    }

    /** Appends the name of column `c` if it is dirty. */
    method PushName(names: seq<string>, c: Column) returns (r: seq<string>)
      requires Valid() && 1 <= c && names == Names(DirtyBelow(dirty, c))
      ensures r == Names(DirtyBelow(dirty, c + 1))
    {
      r := if dirty[c] then names + [COLUMN_NAMES[c]] else names;
      if dirty[c] {
        assert DirtyBelow(dirty, c + 1) == DirtyBelow(dirty, c) + [c];
      }
    }

    method UpdateColumns() returns (names: seq<string>)
      requires Valid()
      ensures names == Names(DirtyBelow(dirty, 9))
    {
      names := PushName([], CHAT_ID);
      names := PushName(names, STATE);
      names := PushName(names, MESSAGE_ID);
      names := PushName(names, NAME);
      names := PushName(names, COMPANY);
      names := PushName(names, COMPANY_POSITION);
      names := PushName(names, PHRASE);
      names := PushName(names, TELEGRAM_NICKNAME);
    }

    /** Binds the value of column `c`, null included, if it is dirty. */
    method Bind(args: seq<Cell>, c: Column) returns (r: seq<Cell>)
      requires Valid() && 1 <= c && args == CellsAt(cells, DirtyBelow(dirty, c))
      ensures r == CellsAt(cells, DirtyBelow(dirty, c + 1))
    {
      r := if dirty[c] then args + [cells[c]] else args;
      if dirty[c] {
        assert DirtyBelow(dirty, c + 1) == DirtyBelow(dirty, c) + [c];
      }
    }

    /** `outputArgs` and `updateArgs` bind the same columns in the same order. */
    method BoundArgs() returns (args: seq<Cell>)
      requires Valid()
      ensures args == CellsAt(cells, DirtyBelow(dirty, 9))
    {
      args := Bind([], CHAT_ID);
      args := Bind(args, STATE);
      args := Bind(args, MESSAGE_ID);
      args := Bind(args, NAME);
      args := Bind(args, COMPANY);
      args := Bind(args, COMPANY_POSITION);
      args := Bind(args, PHRASE);
      args := Bind(args, TELEGRAM_NICKNAME);
    }

    /** Lists column `c` in the statement if it is dirty. */
    method AppendName(sql: string, count: nat, c: Column, ghost head: string) returns (r: string, n: nat)
      requires Valid() && 1 <= c
      requires sql == head + Commas(Names(DirtyBelow(dirty, c))) && count == |DirtyBelow(dirty, c)|
      ensures r == head + Commas(Names(DirtyBelow(dirty, c + 1))) && n == |DirtyBelow(dirty, c + 1)|
    {
      r, n := sql, count;
      if dirty[c] {
        NamesSnoc(DirtyBelow(dirty, c), c);
        CommasSnoc(head, Names(DirtyBelow(dirty, c)), COLUMN_NAMES[c]);
        r, n := r + COLUMN_NAMES[c] + ",", n + 1;
      }
    }

    /** The same for a column with a default: when it is not set, the row must be read back. */
    method AppendDefaulted(sql: string, count: nat, need: bool, c: Column, ghost head: string)
      returns (r: string, n: nat, needSelection: bool)
      requires Valid() && MESSAGE_ID <= c && need == UnsetBelow(dirty, c)
      requires sql == head + Commas(Names(DirtyBelow(dirty, c))) && count == |DirtyBelow(dirty, c)|
      ensures r == head + Commas(Names(DirtyBelow(dirty, c + 1))) && n == |DirtyBelow(dirty, c + 1)|
      ensures needSelection == UnsetBelow(dirty, c + 1)
    {
      r, n := AppendName(sql, count, c, head);
      needSelection := need;
      if !dirty[c] {
        needSelection := true;
      }
    }

    /** Appends a placeholder for column `c` if it is dirty. */
    method AppendMark(sql: string, c: Column, ghost head: string) returns (r: string)
      requires Valid() && 1 <= c && sql == head + Marks(|DirtyBelow(dirty, c)|)
      ensures r == head + Marks(|DirtyBelow(dirty, c + 1)|)
    {
      r := sql;
      if dirty[c] {
        r := r + "?,";
      }
    }

    /** The column list, still open: each dirty column followed by a comma. */
    method InsertNames(head: string) returns (sql: string, count: nat, needSelection: bool)
      requires Valid()
      ensures sql == head + Commas(Names(DirtyBelow(dirty, 9))) && count == |DirtyBelow(dirty, 9)|
      ensures needSelection == UnsetBelow(dirty, 9)
    {
      sql, count := AppendName(head, 0, CHAT_ID, head);
      sql, count := AppendName(sql, count, STATE, head);
      sql, count, needSelection := AppendDefaulted(sql, count, false, MESSAGE_ID, head);
      sql, count, needSelection := AppendDefaulted(sql, count, needSelection, NAME, head);
      sql, count, needSelection := AppendDefaulted(sql, count, needSelection, COMPANY, head);
      sql, count, needSelection := AppendDefaulted(sql, count, needSelection, COMPANY_POSITION, head);
      sql, count, needSelection := AppendDefaulted(sql, count, needSelection, PHRASE, head);
      sql, count, needSelection := AppendDefaulted(sql, count, needSelection, TELEGRAM_NICKNAME, head);
    }

    /** The placeholder list, still open: one `?,` for each dirty column. */
    method InsertMarks(sql: string) returns (r: string)
      requires Valid()
      ensures r == sql + Marks(|DirtyBelow(dirty, 9)|)
    {
      r := AppendMark(sql, CHAT_ID, sql);
      r := AppendMark(r, STATE, sql);
      r := AppendMark(r, MESSAGE_ID, sql);
      r := AppendMark(r, NAME, sql);
      r := AppendMark(r, COMPANY, sql);
      r := AppendMark(r, COMPANY_POSITION, sql);
      r := AppendMark(r, PHRASE, sql);
      r := AppendMark(r, TELEGRAM_NICKNAME, sql);
    }

    /**
     The statement of the dirty columns, in the order in which `BoundArgs` binds them. The row must
     be read back when a defaulted column was not set.
     */
    method SqlForInserting() returns (sql: string, needSelection: bool)
      requires Valid()
      ensures sql == InsertText(Names(DirtyBelow(dirty, 9)))
      ensures needSelection <==> UnsetBelow(dirty, 9)
    {
      var count: nat;
      var head := "insert into " + TABLE_NAME + " (";
      sql, count, needSelection := InsertNames(head);
      sql := CloseNames(sql, count, head, Names(DirtyBelow(dirty, 9)));
      ghost var listed := sql;
      sql := InsertMarks(sql);
      sql := CloseMarks(sql, count, listed);
      InsertTextFlat(Names(DirtyBelow(dirty, 9)));
    }
  }

  /** The last comma becomes the closing parenthesis. */
  method CloseNames(sql: string, count: nat, ghost head: string, ghost names: seq<string>) returns (r: string)
    requires sql == head + Commas(names) && count == |names|
    ensures r == head + ClosedNames(names)
  {
    if count > 0 {
      CommasEnd(names);
      CloseList(head, Commas(names));
      r := sql[|sql| - 1 := ')'];
      r := r + " values (";
      assert head + Commas(names)[..|Commas(names)| - 1] + ")" + " values (" == head + ClosedNames(names);
    } else {
      r := sql + ") values (";
    }
  }

  method CloseMarks(sql: string, count: nat, ghost head: string) returns (r: string)
    requires sql == head + Marks(count)
    ensures r == head + ClosedMarks(count)
  {
    r := sql;
    if count > 0 {
      TrimList(head, Marks(count));
      r := r[..|r| - 1];
    }
    r := r + ")";
  }
}
