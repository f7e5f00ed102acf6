/** Rows of the demand tracker's tables, and the conventions its handlers use
    to read form fields and JSON values. */
module Common {

  datatype Option<+T> = None | Some(value: T)

  /** Primary keys of the `demands` and `work_sessions` tables. */
  type DemandId = int
  type SessionId = int

  /** A DATETIME value: opaque apart from its order. */
  type Timestamp = int

  /** The two statuses of a demand that still waits for work. */
  const QUEUED: string := "Em Fila"
  const IN_PROGRESS: string := "Em Execução"

  predicate IsPending(status: string) {
    status == QUEUED || status == IN_PROGRESS
  }

  /** A row of `demands`. `estimatedHours` is the decimal text the form sent
      (NULL when absent); `executedHours` is kept exactly. */
  datatype Demand = Demand(
    title: string,
    description: Option<string>,
    status: string,
    priority: int,
    createdAt: Timestamp,
    updatedAt: Timestamp,
    estimatedHours: Option<string>,
    executedHours: real)

  /** A row of `work_sessions`. */
  datatype WorkSession = WorkSession(id: SessionId, startTime: Timestamp, endTime: Timestamp, totalMinutes: int)

  /** A row of `work_logs`; `demandId` is the id text the client sent. */
  datatype WorkLog = WorkLog(
    sessionId: SessionId,
    demandId: string,
    minutesSpent: int,
    description: string,
    statusChangedTo: Option<string>)

  /** Python truthiness of an optional text field: present and non-empty. */
  predicate TextGiven(f: Option<string>) {
    f.Some? && f.value != ""
  }

  /** Python truthiness of an optional integer field: present and non-zero. */
  predicate NumberGiven(f: Option<int>) {
    f.Some? && f.value != 0
  }

  /** What a handler answers in JSON: success (200/201), a request it refuses
      before writing (400), or a failed transaction (500). */
  datatype Response = Ok(message: string) | Invalid(message: string) | ServerError(message: string)

  predicate IsDigit(c: char) {
    '0' <= c <= '9'
  }

  predicate IsNumeral(s: string) {
    |s| > 0 && forall i | 0 <= i < |s| :: IsDigit(s[i])
  }

  function NumeralValue(s: string): nat
    requires forall i | 0 <= i < |s| :: IsDigit(s[i])
  {
    if s == [] then 0
    else
      assert IsDigit(s[|s| - 1]);
      NumeralValue(s[..|s| - 1]) * 10 + (s[|s| - 1] as int - '0' as int)
  }

  /** The key that an id sent as text selects: a decimal numeral denotes
      its value, any other text matches no row. */
  function ParseId(s: string): (r: Option<DemandId>)
    ensures r.Some? <==> IsNumeral(s)
    ensures r.Some? ==> r.value >= 0
  {
    if IsNumeral(s) then Some(NumeralValue(s)) else None
  }

  /** The decimal text of an id, as pages and redirects render it. */
  function Numeral(n: nat): (s: string)
    ensures IsNumeral(s)
  {
    if n < 10 then [('0' as int + n) as char]
    else Numeral(n / 10) + [('0' as int + n % 10) as char]
  }

  /** An id rendered as text selects that same id again. */
  lemma {:induction false} ParseNumeral(n: nat)
    ensures ParseId(Numeral(n)) == Some(n)
  {
    var s := Numeral(n);
    if n >= 10 {
      ParseNumeral(n / 10);
      assert s[..|s| - 1] == Numeral(n / 10);
      assert s[|s| - 1] as int - '0' as int == n % 10;
      assert NumeralValue(s) == NumeralValue(Numeral(n / 10)) * 10 + n % 10;
    }
  }

  /** The whitespace `int()` strips (ASCII only). */
  predicate IsSpace(c: char) {
    c == ' ' || c == '\t' || c == '\n' || c == '\r' || c as int == 11 || c as int == 12
  }

  function TrimStart(s: string): (r: string)
    ensures |r| > 0 ==> !IsSpace(r[0])
  {
    if |s| > 0 && IsSpace(s[0]) then TrimStart(s[1..]) else s
  }

  function TrimEnd(s: string): (r: string)
    ensures |r| > 0 ==> !IsSpace(r[|r| - 1])
  {
    if |s| > 0 && IsSpace(s[|s| - 1]) then TrimEnd(s[..|s| - 1]) else s
  }

  /** Digits, where single underscores may separate two digits. */
  predicate IsDigitGroups(s: string) {
    && |s| > 0 && IsDigit(s[0]) && IsDigit(s[|s| - 1])
    && forall i | 0 <= i < |s| :: IsDigit(s[i]) || (s[i] == '_' && i + 1 < |s| && IsDigit(s[i + 1]))
  }

  /** The text Python's `int()` turns into a number: optional surrounding
      whitespace, an optional sign, then digit groups. */
  predicate IntAccepts(s: string) {
    var t := TrimEnd(TrimStart(s));
    if |t| > 0 && (t[0] == '+' || t[0] == '-') then IsDigitGroups(t[1..]) else IsDigitGroups(t)
  }

  /** Every id that selects a row is also text `int()` accepts. */
  lemma NumeralAccepted(s: string)
    requires IsNumeral(s)
    ensures IntAccepts(s)
  {
    assert !IsSpace(s[0]) && !IsSpace(s[|s| - 1]);
    assert TrimStart(s) == s;
    assert TrimEnd(s) == s;
  }

  /** `int()` rejects "abc", "3.5" and "3abc". */
  lemma IntRejects()
    ensures !IntAccepts("abc") && !IntAccepts("3.5") && !IntAccepts("3abc")
  {
    assert TrimStart("abc") == "abc" && TrimEnd("abc") == "abc" && !IsDigit("abc"[0]);
    assert TrimStart("3.5") == "3.5" && TrimEnd("3.5") == "3.5" && !IsDigit("3.5"[1]) && "3.5"[1] != '_';
    assert TrimStart("3abc") == "3abc" && TrimEnd("3abc") == "3abc" && !IsDigit("3abc"[1]) && "3abc"[1] != '_';
  }

  /** `int()` accepts " 3" and "-3", neither of which is a decimal numeral. */
  lemma IntAcceptsMore()
    ensures IntAccepts(" 3") && IntAccepts("-3")
    ensures !IsNumeral(" 3") && !IsNumeral("-3")
  {
    assert !IsDigit(" 3"[0]) && !IsDigit("-3"[0]);
    assert TrimStart(" 3") == TrimStart("3") == "3" && TrimEnd("3") == "3";
    assert TrimStart("-3") == "-3" && TrimEnd("-3") == "-3" && "-3"[1..] == "3";
  }
}
