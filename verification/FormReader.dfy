/** What a participant can read off the form's text, and a reader that finds it there. */
module FormReader {
  import opened Common
  import opened FormStates
  import opened Records

  const LABELS: seq<string> := ["Имя: ", "Название компании: ", "Должность: ", "Affiliate фраза: "]

  /** The states that wait for an answer, in the form's order. */
  const ASKED: seq<RegistrationState> := [WaitingName, WaitingCompanyName, WaitingCompanyPosition, WaitingPhrase]

  /** Reads one line a label: the label, then the answer up to the end of the line. */
  function ReadLines(text: string, labels: seq<string>): (r: Option<seq<string>>)
    ensures r.Some? ==> |r.value| == |labels| && forall k :: 0 <= k < |labels| ==> OneLine(r.value[k])
    decreases |labels|
  {
    if labels == [] then (if text == "" then Some([]) else None)
    else
      match Skip(text, labels[0])
      case None => None
      case Some(s) =>
        match UpTo(s, '\n')
        case None => None
        case Some((answer, rest)) =>
          match ReadLines(rest, labels[1..])
          case None => None
          case Some(answers) => Some([answer] + answers)
  }

  function Lines(labels: seq<string>, answers: seq<string>): string
    requires |labels| == |answers|
  {
    if labels == [] then "" else labels[0] + answers[0] + "\n" + Lines(labels[1..], answers[1..])
  }

  predicate OneLine(answer: string) {
    '\n' !in answer
  }

  /** The reader recovers the answers if and only if each of them is one line. */
  lemma {:induction false} LinesRead(labels: seq<string>, answers: seq<string>)
    requires |labels| == |answers|
    ensures ReadLines(Lines(labels, answers), labels) == Some(answers)
      <==> forall k :: 0 <= k < |answers| ==> OneLine(answers[k])
  {
    if labels != [] {
      var caption, answer := labels[0], answers[0];
      var more := Lines(labels[1..], answers[1..]);
      assert answers == [answer] + answers[1..];
      LinesRead(labels[1..], answers[1..]);
      FrontLine(caption, answer, more);
      if OneLine(answer) {
        forall k | 0 <= k < |answers| ensures OneLine(answers[k]) <==> k == 0 || OneLine(answers[1..][k - 1]) {
        }
        var read := ReadLines(more, labels[1..]);
        if read.Some? {
          SameTail(answer, read.value, answers[1..]);
        }
      }
    }
  }

  lemma FrontLine(caption: string, answer: string, more: string)
    ensures Skip(caption + answer + "\n" + more, caption) == Some(answer + "\n" + more)
    ensures OneLine(answer) ==> UpTo(answer + "\n" + more, '\n') == Some((answer, more))
  {
    assert caption + answer + "\n" + more == caption + (answer + "\n" + more);
    SkipAppended(caption, answer + "\n" + more);
    if OneLine(answer) {
      assert answer + "\n" + more == answer + (['\n'] + more);
      UpToStop(answer, '\n', more);
    }
  }

  /** What the form shows for each asked state: the answer, or that it is awaited. */
  function ShownAnswers(row: Row): (answers: seq<string>)
    ensures |answers| == 4 && forall k :: 0 <= k < 4 ==> answers[k] == Shown(AnswerOf(row, ASKED[k]))
  {
    seq(4, k requires 0 <= k < 4 => Shown(AnswerOf(row, ASKED[k])))
  }

  lemma FourLines(labels: seq<string>, answers: seq<string>)
    requires |labels| == 4 && |answers| == 4
    ensures Lines(labels, answers)
      == labels[0] + answers[0] + "\n" + (labels[1] + answers[1] + "\n"
         + (labels[2] + answers[2] + "\n" + (labels[3] + answers[3] + "\n")))
  {
    assert labels[1..][1..] == labels[2..] && answers[1..][1..] == answers[2..];
    assert labels[2..][1..] == labels[3..] && answers[2..][1..] == answers[3..];
    assert Lines(labels[3..], answers[3..]) == labels[3] + answers[3] + "\n";
    assert Lines(labels[2..], answers[2..]) == labels[2] + answers[2] + "\n" + Lines(labels[3..], answers[3..]);
    assert Lines(labels[1..], answers[1..]) == labels[1] + answers[1] + "\n" + Lines(labels[2..], answers[2..]);
  }

  /** The form's text shows each answer under its own label, exactly as long as no answer has a line break. */
  lemma FormShowsAnswers(row: Row)
    ensures ReadLines(FormText(row), LABELS) == Some(ShownAnswers(row))
      <==> forall s :: OneLine(AnswerOf(row, s))
  {
    FourLines(LABELS, ShownAnswers(row));
    LinesRead(LABELS, ShownAnswers(row));
    assert OneLine(PLACEHOLDER);
    forall s: RegistrationState | s != Completed ensures OneLine(Shown(AnswerOf(row, s))) <==> OneLine(AnswerOf(row, s)) {
    }
    assert ASKED[0] == WaitingName && ASKED[1] == WaitingCompanyName && ASKED[2] == WaitingCompanyPosition;
    if forall k :: 0 <= k < 4 ==> OneLine(ShownAnswers(row)[k]) {
      forall s ensures OneLine(AnswerOf(row, s)) {
        match s
        case WaitingName => assert OneLine(ShownAnswers(row)[0]);
        case WaitingCompanyName => assert OneLine(ShownAnswers(row)[1]);
        case WaitingCompanyPosition => assert OneLine(ShownAnswers(row)[2]);
        case WaitingPhrase => assert OneLine(ShownAnswers(row)[3]);
        case Completed =>
      }
    }
  }

  /** What stands in the place of an answer that is still awaited. */
  const AWAITED: string := "[Waiting]"

  /** What the shown text says about the answer itself. */
  function Unshown(shown: string): string {
    if shown == AWAITED then "" else shown
  }

  function AllUnshown(shown: seq<string>): (r: seq<string>)
    ensures |r| == |shown| && forall k :: 0 <= k < |r| ==> r[k] == Unshown(shown[k])
  {
    seq(|shown|, k requires 0 <= k < |shown| => Unshown(shown[k]))
  }

  /** The answers, empty when awaited, read off a form's text. */
  function ReadForm(text: string): Option<seq<string>> {
    match ReadLines(text, LABELS)
    case None => None
    case Some(shown) => Some(AllUnshown(shown))
  }

  function GivenAnswers(row: Row): (answers: seq<string>)
    ensures |answers| == 4 && forall k :: 0 <= k < 4 ==> answers[k] == AnswerOf(row, ASKED[k])
  {
    seq(4, k requires 0 <= k < 4 => AnswerOf(row, ASKED[k]))
  }

  predicate Legible(answer: string) {
    OneLine(answer) && answer != AWAITED
  }

  lemma EveryAsked(row: Row, p: string -> bool)
    requires p("")
    ensures (forall s :: p(AnswerOf(row, s))) <==> forall k :: 0 <= k < 4 ==> p(GivenAnswers(row)[k])
  {
    var given := GivenAnswers(row);
    assert ASKED[0] == WaitingName && ASKED[1] == WaitingCompanyName && ASKED[2] == WaitingCompanyPosition;
    assert ASKED[3] == WaitingPhrase;
    if forall k :: 0 <= k < 4 ==> p(given[k]) {
      forall s ensures p(AnswerOf(row, s)) {
        match s
        case WaitingName => assert p(given[0]);
        case WaitingCompanyName => assert p(given[1]);
        case WaitingCompanyPosition => assert p(given[2]);
        case WaitingPhrase => assert p(given[3]);
        case Completed =>
      }
    }
  }

  lemma PlaceholderReads()
    ensures OneLine(PLACEHOLDER) && PLACEHOLDER != "" && AWAITED == PLACEHOLDER
  {
  }

  /** Reading the shown answers back, one by one. */
  lemma UnshownReads(read: seq<string>, given: seq<string>)
    requires |read| == |given| && forall k :: 0 <= k < |read| ==> OneLine(read[k])
    requires (forall k :: 0 <= k < |read| ==> read[k] == Shown(given[k])) <==> (forall k :: 0 <= k < |given| ==> OneLine(given[k]))
    ensures AllUnshown(read) == given <==> forall k :: 0 <= k < |given| ==> Legible(given[k])
  {
    PlaceholderReads();
    hide PLACEHOLDER;
    hide AWAITED;
    if AllUnshown(read) == given {
      forall k | 0 <= k < |given| ensures OneLine(given[k]) {
        assert given[k] == Unshown(read[k]);
      }
      forall k | 0 <= k < |given| ensures Legible(given[k]) {
        assert given[k] == Unshown(read[k]) && read[k] == Shown(given[k]);
      }
    }
  }

  /**
   The form's text tells the answers themselves if and only if none has a line break and none is the
   text that stands for an awaited one.
   */
  lemma FormTellsAnswers(row: Row)
    ensures ReadForm(FormText(row)) == Some(GivenAnswers(row)) <==> forall s :: Legible(AnswerOf(row, s))
  {
    PlaceholderReads();
    FormShowsAnswers(row);
    EveryAsked(row, OneLine);
    EveryAsked(row, Legible);
    hide FormText;
    hide PLACEHOLDER;
    hide AWAITED;
    var read := ReadLines(FormText(row), LABELS);
    if read.Some? {
      assert (forall k :: 0 <= k < 4 ==> read.value[k] == Shown(GivenAnswers(row)[k])) ==> read.value == ShownAnswers(row);
      UnshownReads(read.value, GivenAnswers(row));
    } else {
      assert exists k :: 0 <= k < 4 && !OneLine(GivenAnswers(row)[k]);
    }
  }
}
