/** Rows of the `registrations` table and the copies of them that handlers hold. */
module Records {
  import opened FormStates

  /** A column is its index in the table's metadata. */
  type Column = c: nat | c < 9

  const ID: Column := 0
  const CHAT_ID: Column := 1
  const STATE: Column := 2
  const MESSAGE_ID: Column := 3
  const NAME: Column := 4
  const COMPANY: Column := 5
  const COMPANY_POSITION: Column := 6
  const PHRASE: Column := 7
  const TELEGRAM_NICKNAME: Column := 8

  const COLUMN_NAMES: seq<string> :=
    ["id", "chat_id", "state", "message_id", "name", "company", "company_position", "phrase", "telegram_nickname"]

  datatype Cell = Null | Int(n: int) | Text(s: string)

  /** A stored row; every column is NOT NULL. */
  datatype Row = Row(
    id: int,
    chatId: int,
    state: int,
    messageId: int,
    name: string,
    company: string,
    companyPosition: string,
    phrase: string,
    telegramNickname: string)
  {
    function Get(c: Column): Cell {
      match c
      case 0 => Int(id)
      case 1 => Int(chatId)
      case 2 => Int(state)
      case 3 => Int(messageId)
      case 4 => Text(name)
      case 5 => Text(company)
      case 6 => Text(companyPosition)
      case 7 => Text(phrase)
      case _ => Text(telegramNickname)
    }
  }

  /** What an insert gives the columns it does not mention. */
  function DefaultRow(id: int): Row {
    Row(id, 0, 0, 0, "", "", "", "", "")
  }

  /** A handler's copy of a row: the values it read or set, and which columns it set. */
  datatype Record = Record(row: Row, dirty: set<Column>) {
    function SetState(v: int): Record {
      Record(row.(state := v), dirty + {STATE})
    }

    function SetMessageId(v: int): Record {
      Record(row.(messageId := v), dirty + {MESSAGE_ID})
    }

    /** Sets the answer that state `s` waits for. */
    function SetAnswer(s: RegistrationState, text: string): Record {
      match s
      case WaitingName => Record(row.(name := text), dirty + {NAME})
      case WaitingCompanyName => Record(row.(company := text), dirty + {COMPANY})
      case WaitingCompanyPosition => Record(row.(companyPosition := text), dirty + {COMPANY_POSITION})
      case WaitingPhrase => Record(row.(phrase := text), dirty + {PHRASE})
      case Completed => this
    }
  }

  /** A fresh copy, as built from a query result: nothing set yet. */
  function Load(row: Row): Record {
    Record(row, {})
  }

  /** The stored row after an update through `rec`: its set columns, and the row's own value elsewhere. */
  function Overlay(row: Row, rec: Record): Row {
    Row(
      row.id,
      if CHAT_ID in rec.dirty then rec.row.chatId else row.chatId,
      if STATE in rec.dirty then rec.row.state else row.state,
      if MESSAGE_ID in rec.dirty then rec.row.messageId else row.messageId,
      if NAME in rec.dirty then rec.row.name else row.name,
      if COMPANY in rec.dirty then rec.row.company else row.company,
      if COMPANY_POSITION in rec.dirty then rec.row.companyPosition else row.companyPosition,
      if PHRASE in rec.dirty then rec.row.phrase else row.phrase,
      if TELEGRAM_NICKNAME in rec.dirty then rec.row.telegramNickname else row.telegramNickname)
  }

  /** The answer that state `s` waits for. */
  function AnswerOf(row: Row, s: RegistrationState): string {
    match s
    case WaitingName => row.name
    case WaitingCompanyName => row.company
    case WaitingCompanyPosition => row.companyPosition
    case WaitingPhrase => row.phrase
    case Completed => ""
  }

  function AnswerColumn(s: RegistrationState): Column {
    match s
    case WaitingName => NAME
    case WaitingCompanyName => COMPANY
    case WaitingCompanyPosition => COMPANY_POSITION
    case _ => PHRASE
  }

  const PLACEHOLDER := "[Waiting]"

  function Shown(answer: string): string {
    if answer == "" then PLACEHOLDER else answer
  }

  function FormText(row: Row): string {
    "Имя: " + Shown(row.name) + "\n"
    + ("Название компании: " + Shown(row.company) + "\n"
       + ("Должность: " + Shown(row.companyPosition) + "\n"
          + ("Affiliate фраза: " + Shown(row.phrase) + "\n")))
  }

  function Prompt(s: RegistrationState): string {
    match s
    case WaitingName => "Введите ваше имя"
    case WaitingCompanyName => "В какой компании вы работаете?"
    case WaitingCompanyPosition => "Чем вы занимаетесь в компании? :)"
    case WaitingPhrase => "Введите affiliate фразу"
    case Completed => "Спасибо за участие!"
  }

  const THANK_YOU_BEGINS: string := "Результаты будут размещены"

  const THANK_YOU_GOES_ON: string :=
    " в нашем <a href=\"https://t.me/SATOSHI_mrch\">канале</a> 28.05 во второй половине дня,\n\n"
    + "а с победителями конкурса мы свяжемся лично в Telegram для уточнения деталей.\n"

  const THANK_YOU: string := THANK_YOU_BEGINS + THANK_YOU_GOES_ON

  /** The answers that precede raw state `upTo` are all given. */
  predicate Filled(row: Row, upTo: int) {
    && (upTo > 0 ==> row.name != "")
    && (upTo > 10 ==> row.company != "")
    && (upTo > 20 ==> row.companyPosition != "")
    && (upTo > 30 ==> row.phrase != "")
  }

  /** The promise about a stored row: a legal state, and every answer before it given. */
  predicate FilledPrefix(row: Row) {
    GetState(row.state).Some? && Filled(row, row.state)
  }
}
