/**
 * telegramBot/modules/utils.py: the older `parse_time`, which takes only the
 * first number written before each unit letter, and `extract_args`, which
 * reads the target, duration and reason of a moderation command that
 * answers a message.
 */
module ReplyArgs {
  import opened Wrappers
  import opened Text
  import opened CommandArgs

  /**
   * `re.search(r'(\d+)u', s).group(1)` read as a number: the first digit run
   * followed by `u`. A run followed by anything else is passed over whole.
   */
  function Search(s: string, u: char): Option<nat>
    decreases |s|
  {
    if s == [] then None
    else if !IsDigit(s[0]) then Search(s[1..], u)
    else
      var n := DigitRun(s);
      if n < |s| && s[n] == u then Some(DigitsValue(s[..n])) else Search(s[n..], u)
  }

  /** What this `parse_time` returns: each unit's first number, weighted and added up. */
  function FirstPerUnit(s: string): Option<nat> {
    if s == "" then None
    else
      var c := Compact(s);
      var d, h, m, sec := Search(c, 'd'), Search(c, 'h'), Search(c, 'm'), Search(c, 's');
      if d.None? && h.None? && m.None? && sec.None? then None
      else Some(d.GetOr(0) * 86400 + h.GetOr(0) * 3600 + m.GetOr(0) * 60 + sec.GetOr(0))
  }

  /** `parse_time`: four searches, one per unit, each adding to the total. */
  method ParseTimeFirst(timeString: string) returns (r: Option<nat>)
    ensures r == FirstPerUnit(timeString)
  {
    if timeString == "" {
      return None;
    }
    var s := Compact(timeString);
    var total := 0;
    var found := false;
    var days := Search(s, 'd');
    if days.Some? {
      total := total + days.value * 86400;
      found := true;
    }
    var hours := Search(s, 'h');
    if hours.Some? {
      total := total + hours.value * 3600;
      found := true;
    }
    var minutes := Search(s, 'm');
    if minutes.Some? {
      total := total + minutes.value * 60;
      found := true;
    }
    var seconds := Search(s, 's');
    if seconds.Some? {
      total := total + seconds.value;
      found := true;
    }
    r := if found then Some(total) else None;
  }

  // The relation to the other parser of telegramBot/utils.py.

  /** The amount of the first match with unit `u`. */
  function FirstOf(ms: seq<Match>, u: char): Option<nat> {
    if ms == [] then None
    else if ms[0].unit == u then Some(ms[0].amount)
    else FirstOf(ms[1..], u)
  }

  /** How many matches have unit `u`. */
  function Count(ms: seq<Match>, u: char): nat {
    if ms == [] then 0 else (if ms[0].unit == u then 1 else 0) + Count(ms[1..], u)
  }

  /** The amounts of all matches with unit `u`, added up. */
  function Amount(ms: seq<Match>, u: char): nat {
    if ms == [] then 0 else (if ms[0].unit == u then ms[0].amount else 0) + Amount(ms[1..], u)
  }

  /** A search for one unit finds exactly the first match of that unit among all matches. */
  lemma {:induction false} SearchIsFirstMatch(s: string, u: char)
    requires IsUnit(u)
    ensures Search(s, u) == FirstOf(FindAll(s), u)
    decreases |s|
  {
    if s != [] {
      if !IsDigit(s[0]) {
        assert FindAll(s) == [] + FindAll(s[1..]) == FindAll(s[1..]);
        SearchIsFirstMatch(s[1..], u);
      } else {
        var n := DigitRun(s);
        if n < |s| && IsUnit(s[n]) {
          SearchIsFirstMatch(s[n + 1..], u);
          if s[n] != u {
            assert s[n..][1..] == s[n + 1..];
            var m := Match(DigitsValue(s[..n]), s[n]);
            assert FindAll(s) == [m] + FindAll(s[n + 1..]);
            assert ([m] + FindAll(s[n + 1..]))[1..] == FindAll(s[n + 1..]);
          }
        } else {
          assert FindAll(s) == [] + FindAll(s[n..]) == FindAll(s[n..]);
          SearchIsFirstMatch(s[n..], u);
        }
      }
    }
  }

  lemma {:induction false} FindAllUnits(s: string)
    ensures AllUnits(FindAll(s))
    decreases |s|
  {
    if s != [] {
      FindAllUnits(s[Consumed(s)..]);
    }
  }

  /** All the matches, sorted by unit: the days, hours, minutes and seconds they add up to. */
  lemma {:induction false} SecondsByUnit(ms: seq<Match>)
    requires AllUnits(ms)
    ensures Seconds(ms) == Amount(ms, 'd') * 86400 + Amount(ms, 'h') * 3600 + Amount(ms, 'm') * 60 + Amount(ms, 's')
  {
    if ms != [] {
      SecondsByUnit(ms[1..]);
    }
  }

  /** With at most one match of a unit, its total is that match's amount. */
  lemma {:induction false} SingleAmount(ms: seq<Match>, u: char)
    requires Count(ms, u) <= 1
    ensures Amount(ms, u) == FirstOf(ms, u).GetOr(0)
    ensures FirstOf(ms, u).None? <==> Count(ms, u) == 0
  {
    if ms != [] {
      SingleAmount(ms[1..], u);
      if ms[0].unit == u {
        NoneLeft(ms[1..], u);
      }
    }
  }

  lemma {:induction false} NoneLeft(ms: seq<Match>, u: char)
    requires Count(ms, u) == 0
    ensures Amount(ms, u) == 0
  {
    if ms != [] {
      NoneLeft(ms[1..], u);
    }
  }

  /** Some unit is present in any non-empty list of matches. */
  lemma {:induction false} SomeUnitCounted(ms: seq<Match>)
    requires AllUnits(ms) && ms != []
    ensures Count(ms, 'd') + Count(ms, 'h') + Count(ms, 'm') + Count(ms, 's') > 0
  {
  }

  /**
   * The two parsers agree whenever no unit is written twice; with a repeated
   * unit this one keeps only the first number.
   */
  lemma {:induction false} ParsersAgree(s: string)
    requires var ms := FindAll(Compact(s));
      Count(ms, 'd') <= 1 && Count(ms, 'h') <= 1 && Count(ms, 'm') <= 1 && Count(ms, 's') <= 1
    ensures FirstPerUnit(s) == Duration(s)
  {
    if s != "" {
      var c := Compact(s);
      var ms := FindAll(c);
      FindAllUnits(c);
      SearchIsFirstMatch(c, 'd');
      SearchIsFirstMatch(c, 'h');
      SearchIsFirstMatch(c, 'm');
      SearchIsFirstMatch(c, 's');
      SingleAmount(ms, 'd');
      SingleAmount(ms, 'h');
      SingleAmount(ms, 'm');
      SingleAmount(ms, 's');
      SecondsByUnit(ms);
      if ms != [] {
        SomeUnitCounted(ms);
      }
    }
  }

  /** Both parsers find something on exactly the same strings. */
  lemma {:induction false} ParsersFindAlike(s: string)
    ensures FirstPerUnit(s).Some? <==> Duration(s).Some?
  {
    if s != "" {
      var c := Compact(s);
      var ms := FindAll(c);
      FindAllUnits(c);
      SearchIsFirstMatch(c, 'd');
      SearchIsFirstMatch(c, 'h');
      SearchIsFirstMatch(c, 'm');
      SearchIsFirstMatch(c, 's');
      FirstOfIffCount(ms, 'd');
      FirstOfIffCount(ms, 'h');
      FirstOfIffCount(ms, 'm');
      FirstOfIffCount(ms, 's');
      if ms != [] {
        SomeUnitCounted(ms);
      }
    }
  }

  lemma {:induction false} FirstOfIffCount(ms: seq<Match>, u: char)
    ensures FirstOf(ms, u).None? <==> Count(ms, u) == 0
  {
    if ms != [] {
      FirstOfIffCount(ms[1..], u);
    }
  }

  /** This parser reads, for each unit, the first match of that unit. */
  lemma {:induction false} FirstPerUnitByMatches(s: string)
    requires s != ""
    ensures var ms := FindAll(Compact(s));
      var d, h, m, sec := FirstOf(ms, 'd'), FirstOf(ms, 'h'), FirstOf(ms, 'm'), FirstOf(ms, 's');
      FirstPerUnit(s) == if d.None? && h.None? && m.None? && sec.None? then None
        else Some(d.GetOr(0) * 86400 + h.GetOr(0) * 3600 + m.GetOr(0) * 60 + sec.GetOr(0))
  {
    var c := Compact(s);
    SearchIsFirstMatch(c, 'd');
    SearchIsFirstMatch(c, 'h');
    SearchIsFirstMatch(c, 'm');
    SearchIsFirstMatch(c, 's');
  }

  lemma {:induction false} FirstOfTwo(m1: Match, m2: Match, u: char)
    ensures FirstOf([m1, m2], u)
      == if m1.unit == u then Some(m1.amount) else if m2.unit == u then Some(m2.amount) else None
  {
    assert [m1, m2][1..] == [m2];
    assert [m2][1..] == [];
    assert FirstOf([m2], u) == if m2.unit == u then Some(m2.amount) else FirstOf([], u);
    assert FirstOf([m1, m2], u) == if m1.unit == u then Some(m1.amount) else FirstOf([m2], u);
  }

  lemma {:induction false} CountTwo(m1: Match, m2: Match, u: char)
    ensures Count([m1, m2], u) == (if m1.unit == u then 1 else 0) + (if m2.unit == u then 1 else 0)
  {
    assert [m1, m2][1..] == [m2];
    assert [m2][1..] == [];
    assert Count([m2], u) == (if m2.unit == u then 1 else 0) + Count([], u);
    assert Count([m1, m2], u) == (if m1.unit == u then 1 else 0) + Count([m2], u);
  }

  /** On a single term such as "0s" the two parsers agree. */
  lemma {:induction false} SingleTermAgrees(digits: string, u: char)
    requires AllDigits(digits) && IsUnit(u)
    ensures FirstPerUnit(digits + [u]) == Duration(digits + [u])
  {
    CompactTerm(digits, u);
    FindAllTerm(digits, u);
    assert [Match(DigitsValue(digits), u)][1..] == [];
    ParsersAgree(digits + [u]);
  }

  /** On two terms with different units, such as "1d10h", the two parsers agree. */
  lemma {:induction false} DistinctUnitsAgree(d1: string, u1: char, d2: string, u2: char)
    requires AllDigits(d1) && IsUnit(u1) && AllDigits(d2) && IsUnit(u2) && u1 != u2
    ensures FirstPerUnit(d1 + [u1] + (d2 + [u2])) == Duration(d1 + [u1] + (d2 + [u2]))
  {
    var m1, m2 := Match(DigitsValue(d1), u1), Match(DigitsValue(d2), u2);
    CompactTwoTerms(d1, u1, d2, u2);
    FindAllTwoTerms(d1, u1, d2, u2);
    CountTwo(m1, m2, 'd');
    CountTwo(m1, m2, 'h');
    CountTwo(m1, m2, 'm');
    CountTwo(m1, m2, 's');
    ParsersAgree(d1 + [u1] + (d2 + [u2]));
  }

  lemma {:induction false} RepeatedUnitFirsts(d1: string, d2: string, u: char)
    requires AllDigits(d1) && AllDigits(d2) && IsUnit(u)
    ensures var ms := FindAll(Compact(d1 + [u] + (d2 + [u])));
      forall v :: FirstOf(ms, v) == if v == u then Some(DigitsValue(d1)) else None
  {
    var m1, m2 := Match(DigitsValue(d1), u), Match(DigitsValue(d2), u);
    CompactTwoTerms(d1, u, d2, u);
    FindAllTwoTerms(d1, u, d2, u);
    forall v {
      FirstOfTwo(m1, m2, v);
    }
  }

  /** When matches of one unit only were found, the first of them is the duration. */
  lemma {:induction false} OnlyUnit(s: string, u: char, a: nat)
    requires s != "" && IsUnit(u)
    requires forall v :: FirstOf(FindAll(Compact(s)), v) == if v == u then Some(a) else None
    ensures FirstPerUnit(s) == Some(a * UnitSeconds(u))
  {
    FirstPerUnitByMatches(s);
    var ms := FindAll(Compact(s));
    assert FirstOf(ms, 'd') == if u == 'd' then Some(a) else None;
    assert FirstOf(ms, 'h') == if u == 'h' then Some(a) else None;
    assert FirstOf(ms, 'm') == if u == 'm' then Some(a) else None;
    assert FirstOf(ms, 's') == if u == 's' then Some(a) else None;
  }

  /** With the same unit written twice only the first number counts. */
  lemma {:induction false} RepeatedUnit(d1: string, d2: string, u: char)
    requires AllDigits(d1) && AllDigits(d2) && IsUnit(u)
    ensures FirstPerUnit(d1 + [u] + (d2 + [u])) == Some(DigitsValue(d1) * UnitSeconds(u))
  {
    RepeatedUnitFirsts(d1, d2, u);
    OnlyUnit(d1 + [u] + (d2 + [u]), u, DigitsValue(d1));
  }

  /** A unit written twice counts once: "1m1m" is 60 seconds here, 120 for the other parser. */
  lemma {:induction false} RepeatedUnitOnce(s: string)
    requires s == "1m1m"
    ensures FirstPerUnit(s) == Some(60)
    ensures Duration(s) == Some(120)
  {
    var d := "1";
    assert s == d + ['m'] + (d + ['m']);
    RepeatedUnit(d, d, 'm');
    RepeatedUnitAdds(s);
  }

  /** "1d10h" is 122400 seconds. */
  lemma {:induction false} DayAndTenHours(s: string)
    requires s == "1d10h"
    ensures FirstPerUnit(s) == Some(122400)
  {
    var d1, d2 := "1", "10";
    assert DigitsValue(d2) == 10 by {
      assert d2[..1] == "1";
    }
    assert s == d1 + ['d'] + (d2 + ['h']);
    TwoTerms(d1, 'd', d2, 'h');
    DistinctUnitsAgree(d1, 'd', d2, 'h');
  }

  /** "0s" parses to zero seconds, which callers then treat as no duration. */
  lemma {:induction false} ZeroIsSome(s: string)
    requires s == "0s"
    ensures FirstPerUnit(s) == Some(0)
  {
    var d := "0";
    assert s == d + ['s'];
    ZeroSeconds(s);
    SingleTermAgrees(d, 's');
  }

  // extract_args

  const NoTargetError: string := "Не указан пользователь."
  const ReplyRequiredError: string := "Ошибка: Для надежности используйте Reply (ответ) на сообщение нарушителя. Поиск по @username работает только если пользователь уже писал боту."

  /** The target (the replied-to author), duration and reason of a command. */
  datatype Extracted = Extracted(target: Option<int>, duration: Option<nat>, reason: string)

  /** The words after the command itself. */
  function ArgsOf(text: string): seq<string> {
    var ws := Words(text);
    if ws == [] then [] else ws[1..]
  }

  /**
   * `extract_args`: only a reply names a target; an @handle is refused with
   * a request to reply, and anything else with "no user given". After a
   * reply, a first argument with a truthy duration is taken as the duration
   * and the rest is the reason; otherwise all the arguments are the reason.
   */
  method ExtractArgs(replyAuthor: Option<int>, text: string) returns (r: Extracted)
    ensures var args := ArgsOf(text);
      replyAuthor.None? ==>
        r == Extracted(None, None, if |args| > 0 && StartsWith(args[0], "@") then ReplyRequiredError else NoTargetError)
    ensures var args := ArgsOf(text);
      replyAuthor.Some? ==>
        r.target == replyAuthor
        && (args == [] ==> r.duration == None && r.reason == DefaultReason)
        && (args != [] && Truthy(FirstPerUnit(args[0])) ==>
              r.duration == FirstPerUnit(args[0]) && r.reason == ReasonText(args[1..]))
        && (args != [] && !Truthy(FirstPerUnit(args[0])) ==>
              r.duration == None && r.reason == Join(args, " "))
  {
    var args := ArgsOf(text);
    var duration: Option<nat> := None;
    var reason := DefaultReason;
    if replyAuthor.None? {
      if |args| > 0 && StartsWith(args[0], "@") {
        return Extracted(None, None, ReplyRequiredError);
      }
      return Extracted(None, None, NoTargetError);
    }
    if |args| > 0 {
      var parsed := ParseTimeFirst(args[0]);
      if Truthy(parsed) {
        duration := parsed;
        args := args[1..];
        if |args| > 0 {
          reason := Join(args, " ");
        }
      } else {
        reason := Join(args, " ");
      }
    }
    r := Extracted(replyAuthor, duration, reason);
  }
}
