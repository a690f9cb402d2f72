/** The registration form's states, in the order a chat answers them. */
module FormStates {
  import opened Common

  datatype RegistrationState =
    | WaitingName
    | WaitingCompanyName
    | WaitingCompanyPosition
    | WaitingPhrase
    | Completed

  /** The integer stored in the `state` column. */
  function RawValue(s: RegistrationState): int {
    match s
    case WaitingName => 0
    case WaitingCompanyName => 10
    case WaitingCompanyPosition => 20
    case WaitingPhrase => 30
    case Completed => 40
  }

  /** `None` stands for the exception thrown on any other integer. */
  function GetState(raw: int): Option<RegistrationState> {
    match raw
    case 0 => Some(WaitingName)
    case 10 => Some(WaitingCompanyName)
    case 20 => Some(WaitingCompanyPosition)
    case 30 => Some(WaitingPhrase)
    case 40 => Some(Completed)
    case _ => None
  }

  function Prev(s: RegistrationState): RegistrationState {
    match s
    case WaitingName => WaitingName
    case WaitingCompanyName => WaitingName
    case WaitingCompanyPosition => WaitingCompanyName
    case WaitingPhrase => WaitingCompanyPosition
    case Completed => WaitingPhrase
  }

  function Next(s: RegistrationState): RegistrationState {
    match s
    case WaitingName => WaitingCompanyName
    case WaitingCompanyName => WaitingCompanyPosition
    case WaitingCompanyPosition => WaitingPhrase
    case WaitingPhrase => Completed
    case Completed => Completed
  }

  predicate CanGoBack(s: RegistrationState) {
    match s
    case WaitingName => false
    case Completed => false
    case _ => true
  }

  /** Decoding accepts exactly the encodings, and Back undoes Next exactly where the form offers Back. */
  lemma StateCodec(raw: int, s: RegistrationState)
    ensures GetState(raw) == Some(s) <==> raw == RawValue(s)
    ensures CanGoBack(Next(s)) <==> Prev(Next(s)) == s && s != WaitingPhrase && s != Completed
    ensures CanGoBack(s) ==> Next(Prev(s)) == s && RawValue(Prev(s)) == RawValue(s) - 10
  {
  }
}
