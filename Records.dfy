/**
 * The task record of todo/main.py: validation of the optional priority and
 * estimate, the date stamp, and the comma-separated line a record is stored as.
 */
module Records {
  import opened Outcome
  import opened Text

  // -------------------------------------------------------------- validation

  /** What `set_priority` stores: absent, or one upper-case letter. */
  predicate StoredPriority(p: Option<string>) {
    p.None? || (|p.value| == 1 && 'A' <= p.value[0] <= 'Z')
  }

  /** What `set_completion_min` stores: absent, or a canonical decimal. */
  predicate StoredEstimate(e: Option<string>) {
    e.None? || IsCanonical(e.value)
  }

  /**
   * `Task.set_priority`: an absent priority stays absent; a given one is
   * upper-cased and kept only when the result is a single letter A-Z.
   */
  function ValidatePriority(priority: Option<string>): (r: Result<Option<string>>)
    ensures priority.None? ==> r == Ok(None)
    ensures priority.Some? ==>
      (r.Ok? <==> |priority.value| == 1 &&
                  ('a' <= priority.value[0] <= 'z' || 'A' <= priority.value[0] <= 'Z'))
    ensures r.Ok? && priority.Some? ==> r.value == Some([UpperChar(priority.value[0])])
    ensures r.Ok? ==> StoredPriority(r.value)
    ensures r.Err? ==> r.error == InvalidPriority
  {
    match priority
    case None => Ok(None)
    case Some(p) =>
      var u := Upper(p);
      OneLetterBetween(u);
      if |u| != 1 || !IsAlpha(u) || !(StrLe("A", u) && StrLe(u, "Z")) then Err(InvalidPriority)
      else
        assert u == [UpperChar(p[0])];
        Ok(Some(u))
  }

  /** `"A" <= u <= "Z"` on a one-character string compares that character. */
  lemma OneLetterBetween(u: string)
    ensures |u| == 1 ==> (StrLe("A", u) && StrLe(u, "Z") <==> 'A' <= u[0] <= 'Z')
  {
    if |u| == 1 {
      assert "A"[1..] == [] && "Z"[1..] == [] && u[1..] == [];
      assert StrLe("A", u) <==> 'A' <= u[0] by { assert "A"[0] == 'A'; }
      assert StrLe(u, "Z") <==> u[0] <= 'Z' by { assert "Z"[0] == 'Z'; }
    }
  }

  /**
   * `Task.set_completion_min`: an absent estimate stays absent; a given one is
   * kept only when it is all decimal digits, and then as `str(int(s))`.
   */
  function ValidateEstimate(estMin: Option<string>): (r: Result<Option<string>>)
    ensures estMin.None? ==> r == Ok(None)
    ensures estMin.Some? ==> (r.Ok? <==> IsDigits(estMin.value))
    ensures r.Ok? && estMin.Some? ==>
      r.value.Some? && IsCanonical(r.value.value) &&
      ParseDigits(r.value.value) == ParseDigits(estMin.value)
    ensures r.Err? ==> r.error == InvalidEstimate
  {
    match estMin
    case None => Ok(None)
    case Some(e) =>
      if IsDigits(e) then
        var n := ParseDigits(e);
        // the source also rejects a negative value here, which `int` of a
        // digit string never yields
        if n < 0 then Err(InvalidEstimate)
        else
          ParseNatToString(n);
          Ok(Some(NatToString(n)))
      else Err(InvalidEstimate)
  }

  lemma {:induction false} EstimateNumericValue(estMin: string)
    requires IsDigits(estMin)
    ensures ValidateEstimate(Some(estMin)) == Ok(Some(NatToString(ParseDigits(estMin))))
    ensures ParseDigits(ValidateEstimate(Some(estMin)).value.value) == ParseDigits(estMin)
  {
    ParseNatToString(ParseDigits(estMin));
  }

  /** An estimate already in canonical form is stored unchanged. */
  lemma {:induction false} EstimateCanonicalKept(estMin: string)
    requires IsCanonical(estMin)
    ensures ValidateEstimate(Some(estMin)) == Ok(Some(estMin))
  {
    CanonicalRoundTrip(estMin);
  }

  /** Validation is idempotent: a stored value validates to itself. */
  lemma ValidationIdempotent(priority: Option<string>, estMin: Option<string>)
    requires ValidatePriority(priority).Ok? && ValidateEstimate(estMin).Ok?
    ensures ValidatePriority(ValidatePriority(priority).value) == ValidatePriority(priority)
    ensures ValidateEstimate(ValidateEstimate(estMin).value) == ValidateEstimate(estMin)
  {
    var e := ValidateEstimate(estMin).value;
    if e.Some? {
      EstimateCanonicalKept(e.value);
    }
  }

  // ----------------------------------------------------------- line format

  /** `str(datetime.date.today())`, the form YYYY-MM-DD. */
  predicate IsDate(d: string) {
    |d| == 10 && d[4] == '-' && d[7] == '-' &&
    forall i :: 0 <= i < 10 && i != 4 && i != 7 ==> IsDigit(d[i])
  }

  /** An optional field inside an f-string: an absent one prints as `None`. */
  function Field(v: Option<string>): string {
    match v
    case None => "None"
    case Some(s) => s
  }

  /** The f-string `f"{name},{priority},{est_min},{date}\n"` of `add` and `edit`. */
  function TaskLine(name: string, priority: Option<string>, estMin: Option<string>, date: string): string {
    name + "," + Field(priority) + "," + Field(estMin) + "," + date + "\n"
  }

  /** `line.strip().split(",")`: the fields `list` and `today` display. */
  function Fields(line: string): seq<string> {
    Split(Strip(line))
  }

  /** `line.split(',')[0]`: the name `delete` and `do` report. */
  function FirstField(line: string): string {
    Split(line)[0]
  }

  lemma StoredFieldPlain(priority: Option<string>, estMin: Option<string>)
    requires StoredPriority(priority) && StoredEstimate(estMin)
    ensures ',' !in Field(priority) && '\n' !in Field(priority)
    ensures ',' !in Field(estMin) && '\n' !in Field(estMin)
    ensures |Field(estMin)| > 0
  {
  }

  /**
   * Reading a stored line back: the name's own comma-separated parts, then
   * priority, estimate and date. Commas in the name are not escaped.
   */
  lemma TaskLineFields(name: string, priority: Option<string>, estMin: Option<string>, date: string)
    requires |name| == 0 || !IsSpace(name[0])
    requires StoredPriority(priority) && StoredEstimate(estMin) && IsDate(date)
    ensures Fields(TaskLine(name, priority, estMin, date)) ==
            Split(name) + [Field(priority), Field(estMin), date]
  {
    var p, e := Field(priority), Field(estMin);
    StoredFieldPlain(priority, estMin);
    DatePlain(date);
    var body := name + "," + p + "," + e + "," + date;
    assert TaskLine(name, priority, estMin, date) == body + "\n";
    BodyTrimmed(name, p, e, date);
    StripTrimmedNewline(body);
    SplitFourFields(name, p, e, date);
  }

  lemma DatePlain(date: string)
    requires IsDate(date)
    ensures ',' !in date && '\n' !in date && !IsSpace(date[|date| - 1])
  {
    assert forall i :: 0 <= i < 10 ==> date[i] != ',' && date[i] != '\n';
  }

  lemma BodyTrimmed(name: string, p: string, e: string, date: string)
    requires |name| == 0 || !IsSpace(name[0])
    requires |date| > 0 && !IsSpace(date[|date| - 1])
    ensures Trimmed(name + "," + p + "," + e + "," + date)
  {
    var body := name + "," + p + "," + e + "," + date;
    if |name| == 0 { assert body[0] == ','; } else { assert body[0] == name[0]; }
    assert body[|body| - 1] == date[|date| - 1];
  }

  /** Splitting `a,b,c,d` when only `a` may hold commas. */
  lemma SplitFourFields(a: string, b: string, c: string, d: string)
    requires ',' !in b && ',' !in c && ',' !in d
    ensures Split(a + "," + b + "," + c + "," + d) == Split(a) + [b, c, d]
  {
    var ab := a + "," + b;
    var abc := ab + "," + c;
    SplitNoComma(b);
    SplitNoComma(c);
    SplitNoComma(d);
    SplitAppend(a, b);
    SplitAppend(ab, c);
    SplitAppend(abc, d);
    assert Split(a) + [b] + [c] + [d] == Split(a) + [b, c, d];
  }

  /** A text splits into two or more parts exactly when it holds a comma. */
  lemma {:induction false} SplitCommaParts(s: string)
    ensures ',' in s <==> |Split(s)| >= 2
  {
    if |s| > 0 {
      SplitCommaParts(s[1..]);
      assert ',' in s <==> s[0] == ',' || ',' in s[1..] by {
        assert s == [s[0]] + s[1..];
      }
    }
  }

  /** A record whose name has no comma reads back as exactly its four fields. */
  lemma TaskLineRoundTrip(name: string, priority: Option<string>, estMin: Option<string>, date: string)
    requires ',' !in name && (|name| == 0 || !IsSpace(name[0]))
    requires StoredPriority(priority) && StoredEstimate(estMin) && IsDate(date)
    ensures Fields(TaskLine(name, priority, estMin, date)) == [name, Field(priority), Field(estMin), date]
    ensures FirstField(TaskLine(name, priority, estMin, date)) == name
  {
    TaskLineFields(name, priority, estMin, date);
    SplitNoComma(name);
    var rest := TaskLineAfterName(name, priority, estMin, date);
    FirstFieldBeforeComma(name, rest);
  }

  /**
   * A name with a comma shifts the columns: its line reads back with more
   * than four fields, and the name is no longer the first field.
   */
  lemma CommaInNameShiftsFields(name: string, priority: Option<string>, estMin: Option<string>, date: string)
    requires |name| == 0 || !IsSpace(name[0])
    requires StoredPriority(priority) && StoredEstimate(estMin) && IsDate(date)
    requires ',' in name
    ensures |Fields(TaskLine(name, priority, estMin, date))| > 4
    ensures Fields(TaskLine(name, priority, estMin, date))[0] != name
  {
    TaskLineFields(name, priority, estMin, date);
    SplitCommaParts(name);
    SplitPartsNoComma(name);
    assert Fields(TaskLine(name, priority, estMin, date))[0] == Split(name)[0];
  }

  /** A stored line is its name, a comma, and the rest of the record. */
  lemma TaskLineAfterName(name: string, priority: Option<string>, estMin: Option<string>, date: string)
    returns (rest: string)
    ensures TaskLine(name, priority, estMin, date) == name + "," + rest
  {
    rest := Field(priority) + "," + Field(estMin) + "," + date + "\n";
  }

  lemma FirstFieldBeforeComma(a: string, b: string)
    requires ',' !in a
    ensures FirstField(a + "," + b) == a
  {
    SplitNoComma(a);
    SplitAppend(a, b);
  }

  /** A stored line whose name has no newline is one line of the file. */
  lemma TaskLineIsLine(name: string, priority: Option<string>, estMin: Option<string>, date: string)
    requires '\n' !in name
    requires StoredPriority(priority) && StoredEstimate(estMin) && IsDate(date)
    ensures IsLine(TaskLine(name, priority, estMin, date))
    ensures ReadLines(TaskLine(name, priority, estMin, date)) == [TaskLine(name, priority, estMin, date)]
  {
    StoredFieldPlain(priority, estMin);
    var l := TaskLine(name, priority, estMin, date);
    var body := name + "," + Field(priority) + "," + Field(estMin) + "," + date;
    assert l == body + "\n" && l[..|l| - 1] == body;
    assert '\n' !in date by { assert forall i :: 0 <= i < 10 ==> date[i] != '\n'; }
    assert '\n' !in body;
    ReadOneLine(l);
  }

  // ------------------------------------------------------------ the record

  /**
   * `Task(name, priority, est_min)` followed by the f-string: the line `add`
   * and `edit` write, or the first validation failure.
   */
  function NewTaskLine(name: string, priority: Option<string>, estMin: Option<string>, today: string): (r: Result<string>)
    ensures r.Ok? <==> ValidatePriority(priority).Ok? && ValidateEstimate(estMin).Ok?
    ensures ValidatePriority(priority).Err? ==> r == Err(InvalidPriority)
    ensures ValidatePriority(priority).Ok? && ValidateEstimate(estMin).Err? ==> r == Err(InvalidEstimate)
  {
    match ValidatePriority(priority)
    case Err(err) => Err(err)
    case Ok(p) =>
      match ValidateEstimate(estMin)
      case Err(err) => Err(err)
      case Ok(e) => Ok(TaskLine(name, p, e, today))
  }

  /** The record `Task.__init__` builds, field by field through its setters. */
  class Task {
    var name: string
    var priority: Option<string>
    var estMin: Option<string>
    var date: string

    /** The object before any setter has run. */
    constructor Blank(name: string)
      ensures this.name == name && priority == None && estMin == None && date == ""
    {
      this.name := name;
      priority, estMin, date := None, None, "";
    }

    /** `set_priority`: `ok` is false where the source exits with status 1. */
    method SetPriority(p: Option<string>) returns (ok: bool)
      modifies this`priority
      ensures ok <==> ValidatePriority(p).Ok?
      ensures priority == if ok then ValidatePriority(p).value else old(priority)
    {
      if p.None? {
        priority := None;
        return true;
      }
      var u := Upper(p.value);
      if |u| != 1 || !IsAlpha(u) || !(StrLe("A", u) && StrLe(u, "Z")) {
        return false;
      }
      priority := Some(u);
      return true;
    }

    /** `set_completion_min`: `ok` is false where the source exits with status 1. */
    method SetCompletionMin(e: Option<string>) returns (ok: bool)
      modifies this`estMin
      ensures ok <==> ValidateEstimate(e).Ok?
      ensures estMin == if ok then ValidateEstimate(e).value else old(estMin)
    {
      if e.None? {
        estMin := None;
        return true;
      }
      if IsDigits(e.value) {
        var n := ParseDigits(e.value);
        if n < 0 {
          return false;
        }
        estMin := Some(NatToString(n));
        return true;
      }
      return false;
    }

    /** `set_date`, with the clock reading passed in. */
    method SetDate(today: string)
      modifies this`date
      ensures date == today
    {
      date := today;
    }

    /** The stored line of this record. */
    function Line(): string
      reads this
    {
      TaskLine(name, priority, estMin, date)
    }

    /** `Task(name, priority, est_min)`: a fresh record, or the first failed setter. */
    static method New(name: string, priority: Option<string>, estMin: Option<string>, today: string)
      returns (r: Result<Task>)
      ensures r.Err? <==> NewTaskLine(name, priority, estMin, today).Err?
      ensures r.Err? ==> r.error == NewTaskLine(name, priority, estMin, today).error
      ensures r.Ok? ==> fresh(r.value) && r.value.name == name && r.value.date == today
      ensures r.Ok? ==> ValidatePriority(priority).Ok? && r.value.priority == ValidatePriority(priority).value
      ensures r.Ok? ==> ValidateEstimate(estMin).Ok? && r.value.estMin == ValidateEstimate(estMin).value
      ensures r.Ok? ==> r.value.Line() == NewTaskLine(name, priority, estMin, today).value
    {
      var t := new Task.Blank(name);
      var ok := t.SetPriority(priority);
      if !ok {
        return Err(InvalidPriority);
      }
      ok := t.SetCompletionMin(estMin);
      if !ok {
        return Err(InvalidEstimate);
      }
      t.SetDate(today);
      return Ok(t);
    }
  }
}
