/**
 * Input validation of the two bet front-ends, before any ledger access:
 * the bot command `/bet <UP|DOWN> <amount>` (bot.py:307-330) and the JSON body of
 * `POST /api/bet` (server.py:175-191). Both end in the same range check.
 */
module Requests {
  import opened Wrappers
  import opened Config
  import opened Records
  import opened Text
  import opened Admission

  /**
   * A JSON value as Python's `json` module decodes it. Only what the checks look at is kept:
   * for arrays and objects, whether they are empty.
   */
  datatype Json = JNull | JBool(b: bool) | JInt(i: int) | JFloat(r: real) | JStr(s: string) | JCollection(empty: bool)

  /** Python truthiness. */
  predicate Truthy(j: Json)
  {
    match j
    case JNull => false
    case JBool(b) => b
    case JInt(i) => i != 0
    case JFloat(r) => r != 0.0
    case JStr(s) => s != ""
    case JCollection(empty) => !empty
  }

  /** `int()` of a float truncates toward zero. */
  function Truncate(r: real): (n: int)
    ensures 0.0 <= r ==> n as real <= r < n as real + 1.0
    ensures r < 0.0 ==> n as real - 1.0 < r <= n as real
  {
    if r >= 0.0 then r.Floor else -((-r).Floor)
  }

  /** `int(amount)`: None stands for the TypeError or ValueError the handler catches. */
  function PyInt(j: Json): (r: Option<int>)
    ensures r.None? <==> j.JNull? || j.JCollection? || (j.JStr? && ParseInt(j.s).None?)
    ensures j.JStr? ==> r == ParseInt(j.s)
    ensures j.JFloat? && j.r >= 0.0 ==> r.Some? && r.value as real <= j.r < r.value as real + 1.0
    ensures j.JFloat? && j.r < 0.0 ==> r.Some? && r.value as real - 1.0 < j.r <= r.value as real
  {
    match j
    case JBool(b) => Some(if b then 1 else 0)
    case JInt(i) => Some(i)
    case JFloat(r) => Some(Truncate(r))
    case JStr(s) => ParseInt(s)
    case _ => None
  }

  function DirectionName(d: Direction): string
  {
    match d
    case Up => "UP"
    case Down => "DOWN"
  }

  /** `word.upper()` compared with "UP" and "DOWN". */
  function ParseDirection(word: string): (r: Option<Direction>)
    ensures r.Some? ==> DirectionName(r.value) == Upper(word)
    ensures r.None? <==> Upper(word) != "UP" && Upper(word) != "DOWN"
  {
    var w := Upper(word);
    if w == "UP" then Some(Up) else if w == "DOWN" then Some(Down) else None
  }

  /** The range check both front-ends apply to a parsed amount. */
  function CheckRange(amount: int): (r: Option<Rejection>)
    ensures r.None? <==> MIN_BET_AMOUNT <= amount <= MAX_BET_AMOUNT
    ensures r.Some? ==> r.value == (if amount < MIN_BET_AMOUNT then BelowMinimum else AboveMaximum)
  {
    if amount < MIN_BET_AMOUNT then Some(BelowMinimum)
    else if amount > MAX_BET_AMOUNT then Some(AboveMaximum)
    else None
  }

  /** The argument checks of `cmd_bet`, in order; extra arguments are ignored. */
  function ParseCommand(args: seq<string>): (r: Result<(Direction, int), Rejection>)
    ensures r.Ok? ==> MIN_BET_AMOUNT <= r.value.1 <= MAX_BET_AMOUNT
    ensures r.Ok? ==> |args| >= 2 && ParseDirection(args[0]) == Some(r.value.0) && ParseInt(args[1]) == Some(r.value.1)
    ensures r.Failure? ==> r.error in {Usage, BadDirection, NotInteger, BelowMinimum, AboveMaximum}
    ensures r == Failure(Usage) <==> |args| < 2
    ensures r == Failure(BadDirection) <==> |args| >= 2 && ParseDirection(args[0]).None?
    ensures r == Failure(NotInteger) <==>
      |args| >= 2 && ParseDirection(args[0]).Some? && ParseInt(args[1]).None?
    ensures |args| >= 2 && ParseDirection(args[0]).Some? && ParseInt(args[1]).Some? ==>
      (r.Ok? <==> CheckRange(ParseInt(args[1]).value).None?) &&
      (r.Failure? ==> r.error == CheckRange(ParseInt(args[1]).value).value)
    ensures r.Ok? <==>
      |args| >= 2 && ParseDirection(args[0]).Some? && ParseInt(args[1]).Some? &&
      MIN_BET_AMOUNT <= ParseInt(args[1]).value <= MAX_BET_AMOUNT
  {
    if |args| < 2 then Failure(Usage)
    else
      match ParseDirection(args[0])
      case None => Failure(BadDirection)
      case Some(d) =>
        match ParseInt(args[1])
        case None => Failure(NotInteger)
        case Some(a) =>
          match CheckRange(a)
          case Some(e) => Failure(e)
          case None => Ok((d, a))
  }

  /** A truthy direction that is not a string: `.upper()` raises. */
  predicate DirectionRaises(direction: Json)
  {
    Truthy(direction) && !direction.JStr?
  }

  /** The `all(...)` presence check: a non-zero user id, a non-empty direction string and a truthy amount. */
  predicate FieldsPresent(userId: Option<UserId>, direction: Json, amount: Json)
  {
    userId.Some? && userId.value != 0 && direction.JStr? && direction.s != "" && Truthy(amount)
  }

  /**
   * The body checks of `place_bet`, in order. `user_id` is None when absent; a JSON
   * direction that is truthy but not a string makes `.upper()` raise before any check.
   */
  function ValidateBody(userId: Option<UserId>, direction: Json, amount: Json): (r: Result<(UserId, Direction, int), Rejection>)
    ensures r.Ok? ==> MIN_BET_AMOUNT <= r.value.2 <= MAX_BET_AMOUNT
    ensures r.Ok? ==> userId == Some(r.value.0) && r.value.0 != 0 && Truthy(amount) && PyInt(amount) == Some(r.value.2)
    ensures r.Ok? ==> direction.JStr? && ParseDirection(direction.s) == Some(r.value.1)
    ensures r.Failure? ==> r.error in {ServerFault, MissingFields, BadDirection, NotInteger, BelowMinimum, AboveMaximum}
    ensures r == Failure(ServerFault) <==> DirectionRaises(direction)
    ensures r == Failure(MissingFields) <==> !DirectionRaises(direction) && !FieldsPresent(userId, direction, amount)
    ensures r == Failure(BadDirection) <==>
      FieldsPresent(userId, direction, amount) && ParseDirection(direction.s).None?
    ensures r == Failure(NotInteger) <==>
      FieldsPresent(userId, direction, amount) && ParseDirection(direction.s).Some? && PyInt(amount).None?
    ensures FieldsPresent(userId, direction, amount) && ParseDirection(direction.s).Some? && PyInt(amount).Some? ==>
      (r.Ok? <==> CheckRange(PyInt(amount).value).None?) &&
      (r.Failure? ==> r.error == CheckRange(PyInt(amount).value).value)
    ensures r.Ok? <==>
      FieldsPresent(userId, direction, amount) && ParseDirection(direction.s).Some? && PyInt(amount).Some? &&
      MIN_BET_AMOUNT <= PyInt(amount).value <= MAX_BET_AMOUNT
  {
    if Truthy(direction) && !direction.JStr? then Failure(ServerFault)
    else
      var text := if direction.JStr? then Upper(direction.s) else "";
      if userId.None? || userId.value == 0 || text == "" || !Truthy(amount) then Failure(MissingFields)
      else if text != "UP" && text != "DOWN" then Failure(BadDirection)
      else
        match PyInt(amount)
        case None => Failure(NotInteger)
        case Some(a) =>
          match CheckRange(a)
          case Some(e) => Failure(e)
          case None => Ok((userId.value, if text == "UP" then Up else Down, a))
  }

  lemma UpperCharIs(c: char, target: char)
    requires 'A' <= target <= 'Z'
    ensures UpperChar(c) == target <==> c == target || c == (target as int - 'A' as int + 'a' as int) as char
  {
  }

  /** The direction word is matched case-insensitively and must be exactly UP or DOWN. */
  lemma ParseDirectionWords(word: string)
    ensures ParseDirection(word) == Some(Up) <==>
      |word| == 2 && word[0] in "uU" && word[1] in "pP"
    ensures ParseDirection(word) == Some(Down) <==>
      |word| == 4 && word[0] in "dD" && word[1] in "oO" && word[2] in "wW" && word[3] in "nN"
  {
    var w := Upper(word);
    if |word| == 2 {
      UpperCharIs(word[0], 'U');
      UpperCharIs(word[1], 'P');
      assert w == "UP" <==> w[0] == 'U' && w[1] == 'P';
    }
    if |word| == 4 {
      UpperCharIs(word[0], 'D');
      UpperCharIs(word[1], 'O');
      UpperCharIs(word[2], 'W');
      UpperCharIs(word[3], 'N');
      assert w == "DOWN" <==> w[0] == 'D' && w[1] == 'O' && w[2] == 'W' && w[3] == 'N';
    }
  }

  lemma ParseDirectionName(d: Direction)
    ensures ParseDirection(DirectionName(d)) == Some(d)
    ensures Upper(DirectionName(d)) == DirectionName(d)
  {
    UpperOfUpperCase(DirectionName(d));
  }

  /**
   * The two front-ends agree on every well-formed request whose amount is not zero:
   * `/bet D N` and `{"user_id": u, "direction": "D", "amount": N}` are accepted together,
   * with the same direction and amount, or refused together for the same range reason.
   * A JSON string amount is read like the bot's argument.
   */
  lemma FrontEndsAgree(u: UserId, d: Direction, a: int)
    requires u != 0 && a != 0
    ensures var bot := ParseCommand([DirectionName(d), DecimalString(a)]);
      var api := ValidateBody(Some(u), JStr(DirectionName(d)), JInt(a));
      && (bot.Ok? <==> MIN_BET_AMOUNT <= a <= MAX_BET_AMOUNT)
      && (bot.Ok? ==> bot.value == (d, a) && api == Ok((u, d, a)))
      && (bot.Failure? ==> api.Failure? && api.error == bot.error)
  {
    ParseDirectionName(d);
    ParseIntRoundTrip(a);
  }

  /** A JSON string amount is read like the bot's argument, so it is treated as the number it spells. */
  lemma ApiStringAmount(u: UserId, d: Direction, a: int)
    requires u != 0 && a != 0
    ensures ValidateBody(Some(u), JStr(DirectionName(d)), JStr(DecimalString(a))) ==
      ValidateBody(Some(u), JStr(DirectionName(d)), JInt(a))
  {
    ParseIntRoundTrip(a);
    assert Truthy(JStr(DecimalString(a)));
    assert PyInt(JStr(DecimalString(a))) == PyInt(JInt(a));
  }

  /** Where they differ: an amount of 0 is "too small" to the bot but "missing" to the API. */
  lemma ZeroAmountDiffers(u: UserId, d: Direction)
    requires u != 0
    ensures ParseCommand([DirectionName(d), "0"]) == Failure(BelowMinimum)
    ensures ValidateBody(Some(u), JStr(DirectionName(d)), JInt(0)) == Failure(MissingFields)
  {
    ParseDirectionName(d);
    assert DigitsValue("0") == 0 by { assert "0"[..0] == ""; }
  }

  /** The API also takes a fractional amount, truncated, and `true` as a stake of 1. */
  lemma LenientApiAmounts(u: UserId)
    requires u != 0
    ensures ValidateBody(Some(u), JStr("up"), JFloat(2.75)) == Ok((u, Up, 2))
    ensures ValidateBody(Some(u), JStr("Down"), JBool(true)) == Ok((u, Down, 1))
  {
    assert Upper("up") == "UP";
    assert Upper("Down") == "DOWN";
    assert Truncate(2.75) == 2;
  }

  /** A fraction below one truncates to a stake of 0, and a truthy non-string direction is a server error. */
  lemma ApiEdgeCases(u: UserId)
    requires u != 0
    ensures ValidateBody(Some(u), JStr("UP"), JFloat(0.5)) == Failure(BelowMinimum)
    ensures ValidateBody(Some(u), JInt(1), JInt(5)) == Failure(ServerFault)
  {
    assert Upper("UP") == "UP";
    assert Truncate(0.5) == 0;
  }
}
