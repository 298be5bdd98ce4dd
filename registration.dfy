/** POST /register: normalising the optional fields, the team-code policy,
    and the row handed to the participants table. */
module Registration {
  import opened Common
  import opened Records

  /** `string.ascii_uppercase + string.digits`. */
  const Alphabet: string := "ABCDEFGHIJKLMNOPQRSTUVWXYZ0123456789"

  /** The `k` of `random.choices`. */
  const TeamCodeLength: nat := 6

  predicate IsCodeChar(c: char) {
    'A' <= c <= 'Z' || '0' <= c <= '9'
  }

  /** A team code: six upper-case letters or digits. */
  predicate IsTeamCode(s: string) {
    |s| == TeamCodeLength && forall i :: 0 <= i < |s| ==> IsCodeChar(s[i])
  }

  /** The alphabet positions `random.choices` picks, one per character. */
  predicate ValidDraws(draws: seq<nat>) {
    |draws| == TeamCodeLength && forall i :: 0 <= i < |draws| ==> draws[i] < |Alphabet|
  }

  /** The position of a letter or digit in the alphabet. */
  function CodeIndex(c: char): (k: nat)
    requires IsCodeChar(c)
    ensures k < |Alphabet| && Alphabet[k] == c
  {
    if 'A' <= c <= 'Z' then c as int - 'A' as int else 26 + (c as int - '0' as int)
  }

  lemma AlphabetIsCodeChars(k: nat)
    requires k < |Alphabet|
    ensures IsCodeChar(Alphabet[k])
  {
  }

  /** `''.join(...)` of the alphabet characters at the drawn positions. */
  function Pick(draws: seq<nat>): (s: string)
    requires forall i :: 0 <= i < |draws| ==> draws[i] < |Alphabet|
    ensures |s| == |draws|
    ensures forall i :: 0 <= i < |s| ==> s[i] == Alphabet[draws[i]] && IsCodeChar(s[i])
  {
    if draws == [] then []
    else
      AlphabetIsCodeChars(draws[0]);
      [Alphabet[draws[0]]] + Pick(draws[1..])
  }

  /** generate_team_code, with the random draws supplied. */
  function GenerateTeamCode(draws: seq<nat>): (code: string)
    requires ValidDraws(draws)
    ensures IsTeamCode(code)
  {
    Pick(draws)
  }

  /** Every team code is one that generate_team_code can produce. */
  lemma EveryTeamCodeCanBeDrawn(code: string)
    requires IsTeamCode(code)
    ensures exists draws :: ValidDraws(draws) && GenerateTeamCode(draws) == code
  {
    var draws := seq(|code|, i requires 0 <= i < |code| => CodeIndex(code[i]));
    assert GenerateTeamCode(draws) == code;
  }

  /** The team code `register` stores, from the request's raw `teamName` and
      `teamCode`: both are normalised with `or None`, then a code is drawn
      when there is a team name but no team code. */
  function TeamCode(teamName: Option<string>, teamCode: Option<string>, draws: seq<nat>): (r: Option<string>)
    requires ValidDraws(draws)
    ensures Truthy(teamCode) ==> r == teamCode
    ensures !Truthy(teamCode) && Truthy(teamName) ==> r == Some(GenerateTeamCode(draws))
    ensures !Truthy(teamCode) && !Truthy(teamName) ==> r == None
  {
    var name := OrNone(teamName);
    var code := OrNone(teamCode);
    if code.None? && name.Some? then Some(GenerateTeamCode(draws)) else code
  }

  /** The JSON body of a registration request (`total` is the amount). */
  datatype Request = Request(
    name: Option<string>,
    email: Option<string>,
    phone: Option<string>,
    college: Option<string>,
    selectedEvents: Option<seq<Event>>,
    teamName: Option<string>,
    teamCode: Option<string>,
    foodPreference: Option<string>,
    total: Option<int>)

  /** What the insert into the participants table does. */
  datatype Insert =
    | Inserted      // result.data is non-empty
    | NoData        // result.data is empty
    | InsertRaised  // the client raises

  datatype RegisterReply = Registered(teamCode: Option<string>) | SaveFailed | RegisterFailed {
    function Status(): int {
      match this
      case Registered(_) => 200
      case SaveFailed => 500
      case RegisterFailed => 500
    }

    function Message(): string {
      match this
      case Registered(_) => "Registered. Awaiting payment."
      case SaveFailed => "Error saving registration."
      case RegisterFailed => "An unexpected error occurred during registration."
    }
  }

  /** The row submitted for insertion and the reply. */
  datatype Registration = Registration(row: Row, reply: RegisterReply)

  function Register(req: Request, draws: seq<nat>, insert: Insert): (r: Registration)
    requires ValidDraws(draws)
    ensures r.row.paymentStatus == Pending
    ensures && r.row.name == req.name && r.row.email == req.email
            && r.row.phone == req.phone && r.row.college == req.college
            && r.row.amount == req.total
    ensures r.row.selectedEvents == req.selectedEvents.GetOr([])
    ensures r.row.teamName == OrNone(req.teamName) && r.row.food == OrNone(req.foodPreference)
    ensures r.row.teamCode == TeamCode(req.teamName, req.teamCode, draws)
    ensures r.reply.Registered? <==> insert == Inserted
    ensures r.reply.Registered? ==> r.reply.teamCode == r.row.teamCode
    ensures insert == NoData ==> r.reply == SaveFailed
    ensures insert == InsertRaised ==> r.reply == RegisterFailed
  {
    var row := Row(req.name, req.email, req.phone, req.college,
                   req.selectedEvents.GetOr([]),
                   OrNone(req.teamName), TeamCode(req.teamName, req.teamCode, draws),
                   OrNone(req.foodPreference), req.total, Pending);
    match insert
    case Inserted => Registration(row, Registered(row.teamCode))
    case NoData => Registration(row, SaveFailed)
    case InsertRaised => Registration(row, RegisterFailed)
  }

  /** The registration policy on team codes: a code is stored exactly when
      the request has a team code or a team name; an explicit code is kept
      as given; a drawn code is six upper-case letters or digits. */
  lemma RegisteredTeamCode(req: Request, draws: seq<nat>, insert: Insert)
    requires ValidDraws(draws)
    ensures var code := Register(req, draws, insert).row.teamCode;
            && (code.Some? <==> Truthy(req.teamCode) || Truthy(req.teamName))
            && (Truthy(req.teamCode) ==> code == req.teamCode)
            && (!Truthy(req.teamCode) && Truthy(req.teamName) ==> IsTeamCode(code.value))
  {
  }
}
