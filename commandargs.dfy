/**
 * Duration and argument parsing of telegramBot/utils.py: `parse_time`, which
 * sums every `<digits><unit>` match, and `parse_command_complex`, which picks
 * the target of a moderation command and splits the rest of its arguments
 * into a duration, a reason and the `-del` flag.
 */
module CommandArgs {
  import opened Wrappers
  import opened Text
  import opened Database

  predicate IsUnit(c: char) {
    c == 'd' || c == 'h' || c == 'm' || c == 's'
  }

  /** Seconds per unit letter: a day, an hour, a minute, and a second for 's'. */
  function UnitSeconds(u: char): nat {
    match u
    case 'd' => 86400
    case 'h' => 3600
    case 'm' => 60
    case _ => 1
  }

  /** Length of the run of ASCII digits at the head of `s`. */
  function DigitRun(s: string): (n: nat)
    ensures n <= |s|
    ensures n < |s| ==> !IsDigit(s[n])
  {
    if s != [] && IsDigit(s[0]) then 1 + DigitRun(s[1..]) else 0
  }

  /** One `(amount, unit)` pair found in a duration string. */
  datatype Match = Match(amount: nat, unit: char)

  predicate AllUnits(ms: seq<Match>) {
    forall k :: 0 <= k < |ms| ==> IsUnit(ms[k].unit)
  }

  /**
   * How far one step of `re.findall(r'(\d+)([dhms])', s)` advances over a
   * non-empty `s`: past a digit run and its unit letter when they match,
   * past the whole digit run when they do not (no shorter suffix of the run
   * can be followed by a unit either), and past one character otherwise.
   */
  function Consumed(s: string): (k: nat)
    requires s != []
    ensures 1 <= k <= |s|
  {
    if !IsDigit(s[0]) then 1
    else
      var n := DigitRun(s);
      if n < |s| && IsUnit(s[n]) then n + 1 else n
  }

  /** The match at the head of `s`, if there is one. */
  function Found(s: string): (ms: seq<Match>)
    requires s != []
    ensures |ms| <= 1
  {
    if !IsDigit(s[0]) then []
    else
      var n := DigitRun(s);
      if n < |s| && IsUnit(s[n]) then [Match(DigitsValue(s[..n]), s[n])] else []
  }

  /** `re.findall(r'(\d+)([dhms])', s)`: every maximal digit run followed by a unit letter, left to right. */
  function FindAll(s: string): seq<Match>
    decreases |s|
  {
    if s == [] then [] else Found(s) + FindAll(s[Consumed(s)..])
  }

  /** The seconds the matches stand for, all of them added up. */
  function Seconds(ms: seq<Match>): nat {
    if ms == [] then 0 else ms[0].amount * UnitSeconds(ms[0].unit) + Seconds(ms[1..])
  }

  /** `s.lower().replace(" ", "")` */
  function Compact(s: string): string {
    RemoveChar(Lower(s), ' ')
  }

  /** What `parse_time` returns: None for an empty string or when nothing matches. */
  function Duration(s: string): Option<nat> {
    if s == "" then None
    else
      var ms := FindAll(Compact(s));
      if ms == [] then None else Some(Seconds(ms))
  }

  /** `parse_time`: adds up the matches one by one. */
  method ParseTime(timeString: string) returns (r: Option<nat>)
    ensures r == Duration(timeString)
  {
    if timeString == "" {
      return None;
    }
    var s := Compact(timeString);
    var total := 0;
    var found := false;
    var matches := FindAll(s);
    for k := 0 to |matches|
      invariant total + Seconds(matches[k..]) == Seconds(matches)
      invariant found <==> k > 0
    {
      assert matches[k..][1..] == matches[k + 1..];
      total := total + matches[k].amount * UnitSeconds(matches[k].unit);
      found := true;
    }
    r := if found then Some(total) else None;
  }

  lemma {:induction false} SecondsConcat(a: seq<Match>, b: seq<Match>)
    ensures Seconds(a + b) == Seconds(a) + Seconds(b)
  {
    if a != [] {
      assert (a + b)[1..] == a[1..] + b;
      SecondsConcat(a[1..], b);
    } else {
      assert a + b == b;
    }
  }

  lemma {:induction false} DigitRunConcat(x: string, y: string)
    requires x != [] && !IsDigit(x[|x| - 1])
    ensures DigitRun(x + y) == DigitRun(x)
  {
    if IsDigit(x[0]) {
      assert (x + y)[1..] == x[1..] + y;
      DigitRunConcat(x[1..], y);
    }
  }

  /** The first step over a piece that ends in a non-digit does not look past it. */
  lemma {:induction false} DigitRunDigits(s: string)
    ensures forall i :: 0 <= i < DigitRun(s) ==> IsDigit(s[i])
  {
    if s != [] && IsDigit(s[0]) {
      DigitRunDigits(s[1..]);
    }
  }

  lemma {:induction false} HeadConcat(x: string, y: string)
    requires x != [] && !IsDigit(x[|x| - 1])
    ensures Consumed(x + y) == Consumed(x) && Found(x + y) == Found(x)
  {
    if IsDigit(x[0]) {
      var n := DigitRun(x);
      DigitRunDigits(x);
      assert n < |x|;
      DigitRunConcat(x, y);
      assert (x + y)[..n] == x[..n];
    }
  }

  /**
   * Matching never reaches across the end of a piece that ends in a
   * non-digit, so the matches of such a piece and of what follows it are
   * found separately.
   */
  lemma {:induction false} FindAllConcat(x: string, y: string)
    requires x == [] || !IsDigit(x[|x| - 1])
    ensures FindAll(x + y) == FindAll(x) + FindAll(y)
    decreases |x|
  {
    if x == [] {
      assert x + y == y;
    } else {
      var rest := x[Consumed(x)..];
      ConcatHead(x, y);
      FindAllConcat(rest, y);
      AppendAssoc(Found(x), FindAll(rest), FindAll(y));
    }
  }

  lemma {:induction false} AppendAssoc(h: seq<Match>, a: seq<Match>, b: seq<Match>)
    ensures h + (a + b) == (h + a) + b
  {
  }

  lemma {:induction false} ConcatHead(x: string, y: string)
    requires x != [] && !IsDigit(x[|x| - 1])
    ensures FindAll(x + y) == Found(x) + FindAll(x[Consumed(x)..] + y)
    ensures var rest := x[Consumed(x)..]; rest == [] || !IsDigit(rest[|rest| - 1])
  {
    HeadConcat(x, y);
    assert (x + y)[Consumed(x)..] == x[Consumed(x)..] + y;
  }

  /** Pieces that end in a non-digit contribute their seconds independently. */
  lemma {:induction false} SumOfPieces(x: string, y: string)
    requires x == [] || !IsDigit(x[|x| - 1])
    ensures Seconds(FindAll(x + y)) == Seconds(FindAll(x)) + Seconds(FindAll(y))
  {
    FindAllConcat(x, y);
    SecondsConcat(FindAll(x), FindAll(y));
  }

  lemma {:induction false} DigitRunAll(digits: string, rest: string)
    requires AllDigits(digits)
    requires rest == [] || !IsDigit(rest[0])
    ensures DigitRun(digits + rest) == |digits|
  {
    if |digits| > 1 {
      assert (digits + rest)[1..] == digits[1..] + rest;
      DigitRunAll(digits[1..], rest);
    }
  }

  /** A character that neither `lower()` nor the blank removal changes. */
  predicate PlainChar(c: char) {
    !('A' <= c <= 'Z' || '\U{400}' <= c <= '\U{42F}') && c != ' '
  }

  predicate Plain(s: string) {
    forall i :: 0 <= i < |s| ==> PlainChar(s[i])
  }

  lemma {:induction false} PlainConcat(a: string, b: string)
    requires Plain(a) && Plain(b)
    ensures Plain(a + b)
  {
  }

  lemma {:induction false} PlainTerm(digits: string, u: char)
    requires AllDigits(digits) && IsUnit(u)
    ensures Plain(digits + [u])
  {
  }

  /** Compacting a plain string leaves it alone. */
  lemma {:induction false} CompactPlain(s: string)
    requires Plain(s)
    ensures Compact(s) == s
  {
    if s != [] {
      CompactPlain(s[1..]);
      assert Lower(s) == [LowerChar(s[0])] + Lower(s[1..]);
    }
  }

  lemma {:induction false} CompactTerm(digits: string, u: char)
    requires AllDigits(digits) && IsUnit(u)
    ensures Compact(digits + [u]) == digits + [u]
  {
    PlainTerm(digits, u);
    CompactPlain(digits + [u]);
  }

  lemma {:induction false} FindAllTerm(digits: string, u: char)
    requires AllDigits(digits) && IsUnit(u)
    ensures FindAll(digits + [u]) == [Match(DigitsValue(digits), u)]
  {
    var s := digits + [u];
    DigitRunAll(digits, [u]);
    assert s[..|digits|] == digits;
    assert s[|digits| + 1..] == [];
  }

  /** A single `<digits><unit>` term means what it says, e.g. "90m" is 5400 seconds. */
  lemma {:induction false} SingleTerm(digits: string, u: char)
    requires AllDigits(digits) && IsUnit(u)
    ensures Duration(digits + [u]) == Some(DigitsValue(digits) * UnitSeconds(u))
  {
    CompactTerm(digits, u);
    FindAllTerm(digits, u);
    var m := Match(DigitsValue(digits), u);
    assert Seconds([m]) == m.amount * UnitSeconds(u) + Seconds([]);
  }

  /** Two terms add up, whatever their units, e.g. "1h30m" or "1m1m". */
  lemma {:induction false} CompactTwoTerms(d1: string, u1: char, d2: string, u2: char)
    requires AllDigits(d1) && IsUnit(u1) && AllDigits(d2) && IsUnit(u2)
    ensures Compact(d1 + [u1] + (d2 + [u2])) == d1 + [u1] + (d2 + [u2])
  {
    PlainTerm(d1, u1);
    PlainTerm(d2, u2);
    PlainConcat(d1 + [u1], d2 + [u2]);
    CompactPlain(d1 + [u1] + (d2 + [u2]));
  }

  lemma {:induction false} FindAllTwoTerms(d1: string, u1: char, d2: string, u2: char)
    requires AllDigits(d1) && IsUnit(u1) && AllDigits(d2) && IsUnit(u2)
    ensures FindAll(d1 + [u1] + (d2 + [u2])) == [Match(DigitsValue(d1), u1), Match(DigitsValue(d2), u2)]
  {
    FindAllTerm(d1, u1);
    FindAllTerm(d2, u2);
    FindAllConcat(d1 + [u1], d2 + [u2]);
  }

  lemma {:induction false} SecondsOfTwo(a1: nat, u1: char, a2: nat, u2: char)
    ensures Seconds([Match(a1, u1), Match(a2, u2)]) == a1 * UnitSeconds(u1) + a2 * UnitSeconds(u2)
  {
    var m1, m2 := Match(a1, u1), Match(a2, u2);
    assert [m1, m2][1..] == [m2];
    assert Seconds([m2]) == m2.amount * UnitSeconds(m2.unit) + Seconds([]);
    assert Seconds([m1, m2]) == m1.amount * UnitSeconds(m1.unit) + Seconds([m2]);
  }

  /** Two terms add up, whatever their units, e.g. "1h30m" or "1m1m". */
  lemma {:induction false} TwoTerms(d1: string, u1: char, d2: string, u2: char)
    requires AllDigits(d1) && IsUnit(u1) && AllDigits(d2) && IsUnit(u2)
    ensures Duration(d1 + [u1] + (d2 + [u2]))
      == Some(DigitsValue(d1) * UnitSeconds(u1) + DigitsValue(d2) * UnitSeconds(u2))
  {
    var a1, a2 := DigitsValue(d1), DigitsValue(d2);
    var s := d1 + [u1] + (d2 + [u2]);
    TwoTermsMatches(d1, u1, d2, u2);
    DurationOfMatches(s, [Match(a1, u1), Match(a2, u2)]);
    SecondsOfTwo(a1, u1, a2, u2);
  }

  lemma {:induction false} TwoTermsMatches(d1: string, u1: char, d2: string, u2: char)
    requires AllDigits(d1) && IsUnit(u1) && AllDigits(d2) && IsUnit(u2)
    ensures FindAll(Compact(d1 + [u1] + (d2 + [u2]))) == [Match(DigitsValue(d1), u1), Match(DigitsValue(d2), u2)]
  {
    CompactTwoTerms(d1, u1, d2, u2);
    FindAllTwoTerms(d1, u1, d2, u2);
  }

  lemma {:induction false} DurationOfMatches(s: string, ms: seq<Match>)
    requires s != "" && ms != [] && FindAll(Compact(s)) == ms
    ensures Duration(s) == Some(Seconds(ms))
  {
  }

  /** "1h30m" is 5400 seconds. */
  lemma {:induction false} HourAndHalf(s: string)
    requires s == "1h30m"
    ensures Duration(s) == Some(5400)
  {
    var d1, d2 := "1", "30";
    assert DigitsValue(d2) == 30 by {
      assert d2[..1] == "3";
    }
    assert s == d1 + ['h'] + (d2 + ['m']);
    TwoTerms(d1, 'h', d2, 'm');
  }

  lemma {:induction false} CompactConcat(a: string, b: string)
    ensures Compact(a + b) == Compact(a) + Compact(b)
  {
    LowerConcat(a, b);
    RemoveConcat(Lower(a), Lower(b), ' ');
  }

  /** Blanks are ignored: "1h 30m" reads as "1h30m". */
  lemma {:induction false} BlanksIgnored(a: string, b: string)
    ensures Duration(a + " " + b) == Duration(a + b)
  {
    CompactConcat(a + " ", b);
    CompactConcat(a, " ");
    CompactConcat(a, b);
    assert Compact(" ") == [];
    assert Compact(a) + [] == Compact(a);
  }

  /** Case is ignored: "1H30M" reads as "1h30m". */
  lemma {:induction false} CaseIgnored(s: string)
    ensures Duration(Lower(s)) == Duration(s)
  {
    LowerIdempotent(s);
  }

  lemma {:induction false} FindAllNoDigits(t: string)
    requires forall i :: 0 <= i < |t| ==> !IsDigit(t[i])
    ensures FindAll(t) == []
    decreases |t|
  {
    if t != [] {
      FindAllNoDigits(t[1..]);
    }
  }

  /** Text without a digit never parses, e.g. "spam". */
  lemma {:induction false} NoDigitNoDuration(s: string)
    requires forall i :: 0 <= i < |s| ==> !IsDigit(s[i])
    ensures Duration(s) == None
  {
    var c := Compact(s);
    forall i | 0 <= i < |c|
      ensures !IsDigit(c[i])
    {
      assert c[i] in Lower(s);
      var j :| 0 <= j < |s| && Lower(s)[j] == c[i];
    }
    FindAllNoDigits(c);
  }

  /** Every match is counted, so a repeated unit adds up: "1m1m" is 120 seconds. */
  lemma {:induction false} RepeatedUnitAdds(s: string)
    requires s == "1m1m"
    ensures Duration(s) == Some(120)
  {
    var d := "1";
    assert s == d + ['m'] + (d + ['m']);
    TwoTerms(d, 'm', d, 'm');
  }

  /** "0s" parses to zero seconds. */
  lemma {:induction false} ZeroSeconds(s: string)
    requires s == "0s"
    ensures Duration(s) == Some(0)
  {
    var d := "0";
    assert s == d + ['s'];
    SingleTerm(d, 's');
  }

  // ---------------------------------------------------------------------
  // parse_command_complex

  const DefaultReason: string := "Не указана"

  /** How the target is labelled: by a name, or as "ID:<n>" for a numeric id. */
  datatype TargetName = Named(name: string) | IdLabel(id: nat)

  /** Where the target comes from, in order of precedence. */
  datatype TargetSource = ByReply(authorId: int, fullName: string) | ByHandle(handle: string) | ById(id: nat) | NoTarget

  datatype Parsed = Parsed(targetId: Option<int>, targetName: TargetName, duration: Option<nat>, reason: string, deleteFlag: bool)

  /** The target a command names: a reply wins, then an @handle, then a numeric id. */
  function SourceOf(reply: Option<(int, string)>, args: seq<string>): TargetSource {
    if reply.Some? then ByReply(reply.value.0, reply.value.1)
    else if |args| > 0 && StartsWith(args[0], "@") then ByHandle(args[0])
    else if |args| > 0 && AllDigits(args[0]) then ById(DigitsValue(args[0]))
    else NoTarget
  }

  /** The arguments left once the target has been taken off. */
  function RestOf(reply: Option<(int, string)>, args: seq<string>): (rest: seq<string>)
    ensures rest == args || (|args| > 0 && rest == args[1..])
    ensures SourceOf(reply, args).ByHandle? || SourceOf(reply, args).ById? <==> rest != args
  {
    match SourceOf(reply, args)
    case ByHandle(_) => args[1..]
    case ById(_) => args[1..]
    case _ => args
  }

  /** A duration Python treats as true: present and not zero. */
  predicate Truthy(d: Option<nat>) {
    d.Some? && d.value != 0
  }

  /** The three things the argument loop accumulates. */
  datatype Scan = Scan(duration: Option<nat>, reasons: seq<string>, deleteFlag: bool)

  const Start: Scan := Scan(None, [], false)

  /** One turn of the argument loop. */
  function ScanArg(st: Scan, arg: string): Scan {
    if arg == "-del" then st.(deleteFlag := true)
    else if st.duration.None? && Truthy(Duration(arg)) then st.(duration := Duration(arg))
    else st.(reasons := st.reasons + [arg])
  }

  /** The argument loop over all the remaining arguments. */
  function ScanAll(st: Scan, args: seq<string>): Scan
    decreases |args|
  {
    if args == [] then st else ScanAll(ScanArg(st, args[0]), args[1..])
  }

  function ReasonText(reasons: seq<string>): string {
    if reasons == [] then DefaultReason else Join(reasons, " ")
  }

  /**
   * `parse_command_complex`: the target by precedence, then one pass over
   * the remaining arguments. `reply` is the id and full name of the author of
   * the message replied to; an @handle is looked up in `db`.
   */
  method ParseCommandComplex(db: Store, reply: Option<(int, string)>, argsStr: string) returns (p: Parsed)
    ensures var words := Words(argsStr);
      match SourceOf(reply, words)
      case ByReply(id, fullName) => p.targetId == Some(id) && p.targetName == Named(fullName)
      case ByHandle(handle) =>
        p.targetName == Named(handle)
        && (p.targetId.Some? ==> p.targetId.value in db.users && db.users[p.targetId.value].username == Some(Clean(handle)))
        && (p.targetId.None? ==> forall u :: u in db.users ==> db.users[u].username != Some(Clean(handle)))
      case ById(n) => p.targetId == Some(n) && p.targetName == IdLabel(n)
      case NoTarget => p.targetId == None && p.targetName == Named("User")
    ensures var st := ScanAll(Start, RestOf(reply, Words(argsStr)));
      p.duration == st.duration && p.reason == ReasonText(st.reasons) && p.deleteFlag == st.deleteFlag
  {
    var targetId: Option<int> := None;
    var targetName := Named("User");
    var duration: Option<nat> := None;
    var reasonParts: seq<string> := [];
    var deleteFlag := false;
    var args := Words(argsStr);
    ghost var words := args;
    if reply.Some? {
      targetId := Some(reply.value.0);
      targetName := Named(reply.value.1);
    } else if |args| > 0 && StartsWith(args[0], "@") {
      var username := args[0];
      targetId := db.GetIdByUsername(username);
      targetName := Named(username);
      args := args[1..];
    } else if |args| > 0 && AllDigits(args[0]) {
      var n := DigitsValue(args[0]);
      targetId := Some(n);
      targetName := IdLabel(n);
      args := args[1..];
    }
    assert args == RestOf(reply, words);
    for k := 0 to |args|
      invariant ScanAll(Scan(duration, reasonParts, deleteFlag), args[k..]) == ScanAll(Start, args)
    {
      assert args[k..][1..] == args[k + 1..];
      var arg := args[k];
      if arg == "-del" {
        deleteFlag := true;
        continue;
      }
      if duration.None? {
        var parsed := ParseTime(arg);
        if Truthy(parsed) {
          duration := parsed;
          continue;
        }
      }
      reasonParts := reasonParts + [arg];
    }
    assert args[|args|..] == [];
    var reason := if reasonParts != [] then Join(reasonParts, " ") else DefaultReason;
    p := Parsed(targetId, targetName, duration, reason, deleteFlag);
  }

  /** "-del" anywhere among the arguments sets the flag, and nothing else does. */
  lemma {:induction false} FlagIffDel(st: Scan, args: seq<string>)
    ensures ScanAll(st, args).deleteFlag <==> st.deleteFlag || "-del" in args
    decreases |args|
  {
    if args != [] {
      FlagIffDel(ScanArg(st, args[0]), args[1..]);
      assert args == [args[0]] + args[1..];
    }
  }

  /** "-del" is dropped, never part of the reason. */
  lemma {:induction false} DelNeverInReason(st: Scan, args: seq<string>)
    requires "-del" !in st.reasons
    ensures "-del" !in ScanAll(st, args).reasons
    decreases |args|
  {
    if args != [] {
      DelNeverInReason(ScanArg(st, args[0]), args[1..]);
    }
  }

  /** The first argument other than "-del" whose duration is truthy. */
  function FirstTruthy(args: seq<string>): (d: Option<nat>)
    ensures d.Some? ==> d.value != 0
    decreases |args|
  {
    if args == [] then None
    else if args[0] != "-del" && Truthy(Duration(args[0])) then Duration(args[0])
    else FirstTruthy(args[1..])
  }

  /** Every argument except "-del", in order. */
  function WithoutDel(args: seq<string>): seq<string>
    decreases |args|
  {
    if args == [] then []
    else if args[0] == "-del" then WithoutDel(args[1..])
    else [args[0]] + WithoutDel(args[1..])
  }

  /** The duration is the first truthy one; a duration already set is kept. */
  lemma {:induction false} DurationIsFirst(st: Scan, args: seq<string>)
    ensures st.duration.None? ==> ScanAll(st, args).duration == FirstTruthy(args)
    ensures st.duration.Some? ==> ScanAll(st, args).duration == st.duration
    decreases |args|
  {
    if args != [] {
      DurationIsFirst(ScanArg(st, args[0]), args[1..]);
    }
  }

  /** Once the duration is set, every further argument except "-del" goes to the reason, in order. */
  lemma {:induction false} AfterDurationAllReason(st: Scan, args: seq<string>)
    requires st.duration.Some?
    ensures ScanAll(st, args).reasons == st.reasons + WithoutDel(args)
    decreases |args|
  {
    if args == [] {
      assert st.reasons + [] == st.reasons;
    } else {
      var next := ScanArg(st, args[0]);
      AfterDurationAllReason(next, args[1..]);
      if args[0] != "-del" {
        assert st.reasons + [args[0]] + WithoutDel(args[1..]) == st.reasons + ([args[0]] + WithoutDel(args[1..]));
      }
    }
  }

  /**
   * Every argument lands in exactly one place: the flag, the duration (at
   * most one of them), or the reason.
   */
  lemma {:induction false} ArgumentsPartitioned(st: Scan, args: seq<string>)
    ensures var r := ScanAll(st, args);
      |r.reasons| + (if st.duration.None? && r.duration.Some? then 1 else 0)
        == |st.reasons| + |WithoutDel(args)|
    decreases |args|
  {
    if args != [] {
      ArgumentsPartitioned(ScanArg(st, args[0]), args[1..]);
      DurationIsFirst(ScanArg(st, args[0]), args[1..]);
    }
  }

  /** "/mute 10m spam -del 5m": ten minutes, the later "5m" is part of the reason. */
  lemma {:induction false} SpamExample(args: seq<string>)
    requires args == ["10m", "spam", "-del", "5m"]
    ensures ScanAll(Start, args) == Scan(Some(600), ["spam", "5m"], true)
  {
    var d := "10";
    assert args[0] == d + ['m'];
    assert DigitsValue(d) == 10 by {
      assert d[..1] == "1";
    }
    SingleTerm(d, 'm');
    var s1 := ScanArg(Start, args[0]);
    assert s1 == Scan(Some(600), [], false);
    var rest := args[1..];
    AfterDurationAllReason(s1, rest);
    FlagIffDel(s1, rest);
    DurationIsFirst(s1, rest);
    assert rest[1] == "-del";
    assert WithoutDel(rest[2..]) == ["5m"] by {
      assert rest[2..][1..] == [];
    }
    assert WithoutDel(rest) == ["spam"] + WithoutDel(rest[2..]) by {
      assert rest[1..][1..] == rest[2..];
    }
  }
}
