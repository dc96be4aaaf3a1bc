/**
 * `SmartFloodControl` of telegramBot/utils.py: a per-user score that decays
 * with time and grows with every message by a weight that punishes short,
 * repeated and low-variety texts.
 */
module Flood {
  import opened Wrappers
  import opened Text

  // The score loses 0.5 per second of silence. A message weighs 1.0, times
  // 1.5 when shorter than 5 characters, times 4.0 when equal to the previous
  // message or else times 2.0 when similar to it (ratio above 0.75), and
  // times 2.0 when longer than 8 characters with fewer than 4 distinct ones.
  const MaxScore: real := 10.0
  const WarnScore: real := 6.0

  datatype Status = Pass | Warn | Mute

  /** One entry of `self.users`. */
  datatype Entry = Entry(score: real, lastMsg: string, lastTime: real)

  /** `set(s)` */
  function CharSet(s: string): set<char> {
    if s == [] then {} else {s[0]} + CharSet(s[1..])
  }

  lemma {:induction false} CharSetSpec(s: string)
    ensures forall c :: c in CharSet(s) <==> c in s
  {
    if s != [] {
      CharSetSpec(s[1..]);
      assert s == [s[0]] + s[1..];
    }
  }

  /** The weight of a message, given its cleaned text and the user's previous one. */
  function Weight(clean: string, last: string, ratio: (string, string) -> real): (w: real)
    ensures 1.0 <= w <= 8.0
    ensures |clean| < 5 && clean == last ==> w == 6.0
  {
    var w1 := if |clean| < 5 then 1.5 else 1.0;
    var w2 := if clean == last then w1 * 4.0
              else if ratio(clean, last) > 0.75 then w1 * 2.0
              else w1;
    if |clean| > 8 && |CharSet(clean)| < 4 then w2 * 2.0 else w2
  }

  /** The score after `elapsed` seconds of silence. */
  function Decayed(score: real, elapsed: real): (d: real)
    ensures d >= 0.0
    ensures elapsed >= 0.0 && score >= 0.0 ==> d <= score
    ensures score - elapsed * 0.5 >= 0.0 ==> d == score - elapsed * 0.5
    ensures score - elapsed * 0.5 < 0.0 ==> d == 0.0
  {
    if score - elapsed * 0.5 < 0.0 then 0.0 else score - elapsed * 0.5
  }

  /** The entry of a user seen for the first time at `now`. */
  function Fresh(now: real): Entry {
    Entry(0.0, "", now)
  }

  /** The text `check` weighs and remembers. */
  function CleanText(text: string): string {
    Strip(Lower(text))
  }

  /** The score a message raises the entry to, before any reset. */
  function Raised(entry: Entry, clean: string, now: real, ratio: (string, string) -> real): (score: real)
    ensures score >= 1.0
  {
    Decayed(entry.score, now - entry.lastTime) + Weight(clean, entry.lastMsg, ratio)
  }

  /** Classification of a raised score, with the reset to 6 that follows a mute. */
  function Classify(score: real, clean: string, now: real): (r: (Entry, Status))
    requires score > 0.0
    ensures 0.0 < r.0.score < MaxScore
    ensures r.0.lastMsg == clean && r.0.lastTime == now
  {
    if score >= MaxScore then (Entry(WarnScore, clean, now), Mute)
    else if score >= WarnScore then (Entry(score, clean, now), Warn)
    else (Entry(score, clean, now), Pass)
  }

  /**
   * The whole of `check` on one user's entry, given the cleaned text: the new
   * entry and the verdict.
   */
  function Step(entry: Entry, clean: string, now: real, ratio: (string, string) -> real): (Entry, Status) {
    Classify(Raised(entry, clean, now, ratio), clean, now)
  }

  /** The verdict is read off the score before any reset: 10 or more mutes, 6 or more warns. */
  lemma {:induction false} StepClassifies(entry: Entry, clean: string, now: real, ratio: (string, string) -> real)
    ensures var raw := Raised(entry, clean, now, ratio);
      var r := Step(entry, clean, now, ratio);
      (r.1 == Mute <==> raw >= MaxScore)
      && (r.1 == Warn <==> WarnScore <= raw < MaxScore)
      && (r.1 == Pass <==> raw < WarnScore)
      && (r.1 == Mute ==> r.0.score == WarnScore)
      && (r.1 != Mute ==> r.0.score == raw)
  {
  }

  lemma {:induction false} ClassifyBelow(raw: real, clean: string, now: real)
    requires 0.0 < raw < MaxScore
    ensures Classify(raw, clean, now).1 != Mute
  {
  }

  /** A single message after 20 seconds of silence is never muted. */
  lemma {:induction false} QuietUserNotMuted(entry: Entry, clean: string, now: real, ratio: (string, string) -> real)
    requires 0.0 <= entry.score < MaxScore
    requires now - entry.lastTime >= 20.0
    ensures Step(entry, clean, now, ratio).1 != Mute
  {
    assert Decayed(entry.score, now - entry.lastTime) == 0.0;
    var raw := Raised(entry, clean, now, ratio);
    ClassifyBelow(raw, clean, now);
  }

  /** Waiting longer before writing never gives a higher score. */
  lemma {:induction false} LaterIsLower(entry: Entry, text: string, t1: real, t2: real, ratio: (string, string) -> real)
    requires t1 <= t2
    ensures Decayed(entry.score, t2 - entry.lastTime) <= Decayed(entry.score, t1 - entry.lastTime)
  {
  }

  /** The heaviest message: a long low-variety text repeated verbatim weighs 8. */
  lemma {:induction false} HeaviestWeight(ratio: (string, string) -> real)
    ensures Weight("aaaaaaaaa", "aaaaaaaaa", ratio) == 8.0
  {
    var s := "aaaaaaaaa";
    CharSetSpec(s);
    assert CharSet(s) <= {'a'};
    SubsetSize(CharSet(s), {'a'});
  }

  lemma {:induction false} SubsetSize(a: set<char>, b: set<char>)
    requires a <= b
    ensures |a| <= |b|
  {
    assert b == a + (b - a);
  }

  /** Tracks every user it has seen; all its methods change only `users`. */
  class FloodControl {
    var users: map<int, Entry>

    ghost predicate Valid()
      reads this
    {
      forall u :: u in users ==> 0.0 <= users[u].score < MaxScore
    }

    constructor ()
      ensures Valid() && users == map[]
    {
      users := map[];
    }

    /**
     * `check`: create the entry of a new user, decay the score, add the
     * message's weight, remember the message, and classify.
     */
    method Check(userId: int, text: string, now: real, ratio: (string, string) -> real) returns (status: Status)
      requires Valid()
      modifies this
      ensures Valid()
      ensures var before := if userId in old(users) then old(users)[userId] else Fresh(now);
        var r := Step(before, CleanText(text), now, ratio);
        users == old(users)[userId := r.0] && status == r.1
    {
      var clean := CleanText(text);
      status := Record(userId, clean, now, ratio);
    }

    /** The body of `check` once the text has been lowered and stripped. */
    method Record(userId: int, clean: string, now: real, ratio: (string, string) -> real) returns (status: Status)
      requires Valid()
      modifies this
      ensures Valid()
      ensures var before := if userId in old(users) then old(users)[userId] else Fresh(now);
        var r := Step(before, clean, now, ratio);
        users == old(users)[userId := r.0] && status == r.1
    {
      var data := if userId in users then users[userId] else Entry(0.0, "", now);
      ghost var before := data;
      var timeDiff := now - data.lastTime;
      var decayed := data.score - timeDiff * 0.5;
      data := data.(score := if 0.0 > decayed then 0.0 else decayed);
      assert data.score == Decayed(before.score, now - before.lastTime);
      var weight := 1.0;
      if |clean| < 5 {
        weight := weight * 1.5;
      }
      if clean == data.lastMsg {
        weight := weight * 4.0;
      } else if ratio(clean, data.lastMsg) > 0.75 {
        weight := weight * 2.0;
      }
      if |clean| > 8 && |CharSet(clean)| < 4 {
        weight := weight * 2.0;
      }
      assert weight == Weight(clean, before.lastMsg, ratio);
      data := data.(score := data.score + weight, lastMsg := clean, lastTime := now);
      if data.score >= MaxScore {
        data := data.(score := WarnScore);
        status := Mute;
      } else if data.score >= WarnScore {
        status := Warn;
      } else {
        status := Pass;
      }
      users := users[userId := data];
    }
  }

  lemma {:induction false} CleanHi()
    ensures CleanText("hi") == "hi"
  {
  }

  /** The three steps of "hi" sent three times at one instant: 1.5, 7.5, then 13.5 reset to 6. */
  lemma {:induction false} HiFirst(ratio: (string, string) -> real, now: real)
    requires ratio("hi", "") <= 0.75
    ensures Step(Fresh(now), "hi", now, ratio) == (Entry(1.5, "hi", now), Pass)
  {
    assert "hi" != "";
    assert Weight("hi", "", ratio) == 1.5;
  }

  lemma {:induction false} HiRepeated(ratio: (string, string) -> real, now: real, score: real)
    requires score == 1.5 || score == 7.5
    ensures Step(Entry(score, "hi", now), "hi", now, ratio)
         == if score == 1.5 then (Entry(7.5, "hi", now), Warn) else (Entry(WarnScore, "hi", now), Mute)
  {
    assert Weight("hi", "hi", ratio) == 6.0;
  }

  /** "hi" three times at the same instant from a new user scores 1.5, 7.5 and 13.5: ok, warn, then mute. */
  method HiThreeTimes(flood: FloodControl, userId: int, ratio: (string, string) -> real, now: real)
    returns (s1: Status, s2: Status, s3: Status)
    requires flood.Valid() && userId !in flood.users
    requires ratio("hi", "") <= 0.75
    modifies flood
    ensures s1 == Pass && s2 == Warn && s3 == Mute
  {
    HiFirst(ratio, now);
    s1 := flood.Record(userId, "hi", now, ratio);
    HiRepeated(ratio, now, 1.5);
    s2 := flood.Record(userId, "hi", now, ratio);
    HiRepeated(ratio, now, 7.5);
    s3 := flood.Record(userId, "hi", now, ratio);
  }
}
