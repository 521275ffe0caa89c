/**
 * The submission gate: two per-user maps holding the time and the text of
 * each user's last published submission (main.go:29-30), the rate-limit /
 * duplicate decision read from them (main.go:138-153), and the commit
 * that writes them after a successful publish (main.go:176-179).
 *
 * Times are instants of a nanosecond clock, as Go's time.Duration counts
 * nanoseconds; `now` stands for the clock reading that time.Since and
 * time.Now take.
 */
module Gate {

  const Second: int := 1_000_000_000
  const Minute: int := 60 * Second
  /** rateLimitDuration (main.go:32). */
  const RateLimitDuration: int := 20 * Minute

  datatype Decision = Allowed | RateLimited | Duplicate

  /** The values of userLastMessageTime and userLastMessage. */
  datatype GateState = GateState(lastTime: map<int, int>, lastText: map<int, string>) {

    /** Both maps have the same users: every write touches both. */
    predicate InSync() {
      lastTime.Keys == lastText.Keys
    }

    /** userLastMessage[user], which is "" for a user with no entry. */
    function LastText(user: int): (text: string)
      ensures user in lastText ==> text == lastText[user]
      ensures user !in lastText ==> text == ""
    {
      if user in lastText then lastText[user] else ""
    }
  }

  const EmptyGate := GateState(map[], map[])

  /** The two maps agree with each other on one user's entries. */
  predicate SameRecord(g: GateState, h: GateState, user: int) {
    && (user in g.lastTime <==> user in h.lastTime)
    && (user in g.lastTime ==> g.lastTime[user] == h.lastTime[user])
    && (user in g.lastText <==> user in h.lastText)
    && (user in g.lastText ==> g.lastText[user] == h.lastText[user])
  }

  /**
   * The gate decision of main.go:139-152: rate limiting is checked first,
   * then equality with the stored text, where a missing entry reads as "".
   */
  function Decide(g: GateState, user: int, text: string, now: int): (d: Decision)
    ensures d == RateLimited <==> user in g.lastTime && now - g.lastTime[user] < RateLimitDuration
    ensures d == Duplicate ==> text == g.LastText(user)
    ensures d == Allowed ==> text != g.LastText(user)
  {
    if user in g.lastTime && now - g.lastTime[user] < RateLimitDuration then RateLimited
    else if g.LastText(user) == text then Duplicate
    else Allowed
  }

  /** The gate after the two writes of main.go:177-178. */
  function Record(g: GateState, user: int, text: string, now: int): (h: GateState)
    ensures g.InSync() ==> h.InSync()
    ensures user in h.lastTime && h.lastTime[user] == now && h.LastText(user) == text
    ensures forall v :: v != user ==> SameRecord(g, h, v)
  {
    GateState(g.lastTime[user := now], g.lastText[user := text])
  }

  /** Inside the cooldown the decision is RateLimited whatever the text. */
  lemma RateLimitIgnoresText(g: GateState, user: int, text1: string, text2: string, now: int)
    ensures Decide(g, user, text1, now) == RateLimited <==> Decide(g, user, text2, now) == RateLimited
  {
  }

  /** After a commit at time t, any text from that user before t + 20 minutes is rate-limited. */
  lemma CooldownAfterRecord(g: GateState, user: int, text: string, t: int, next: string, now: int)
    requires now - t < RateLimitDuration
    ensures Decide(Record(g, user, text, t), user, next, now) == RateLimited
  {
  }

  /** Once the cooldown has passed, the same text is a duplicate, and any other text is allowed. */
  lemma AfterCooldown(g: GateState, user: int, text: string, t: int, next: string, now: int)
    requires now - t >= RateLimitDuration
    ensures Decide(Record(g, user, text, t), user, next, now) == if next == text then Duplicate else Allowed
  {
  }

  /**
   * A user without an entry is never rate-limited, and is a duplicate only
   * for the empty text, which matches the missing-entry default "".
   */
  lemma FirstSubmission(g: GateState, user: int, text: string, now: int)
    requires g.InSync() && user !in g.lastTime
    ensures Decide(g, user, text, now) == if text == "" then Duplicate else Allowed
  {
  }

  /** A commit for one user does not change any other user's decisions. */
  lemma RecordIsolatesUsers(g: GateState, user: int, text: string, t: int, other: int, next: string, now: int)
    requires other != user
    ensures Decide(Record(g, user, text, t), other, next, now) == Decide(g, other, next, now)
  {
    assert SameRecord(g, Record(g, user, text, t), other);
  }

  /** An allowed submission stays allowed at any later time while the gate is unchanged. */
  lemma AllowedStaysAllowed(g: GateState, user: int, text: string, now: int, later: int)
    requires Decide(g, user, text, now) == Allowed
    requires now <= later
    ensures Decide(g, user, text, later) == Allowed
  {
  }

  /**
   * The gate object: the two maps of main.go:29-30, read together by
   * Evaluate and written together by Commit. Processing is sequential, so
   * the mutex guarding them is not modelled.
   */
  class SubmissionGate {
    var lastTime: map<int, int>
    var lastText: map<int, string>

    ghost predicate Valid()
      reads this
    {
      State().InSync()
    }

    function State(): GateState
      reads this
    {
      GateState(lastTime, lastText)
    }

    constructor ()
      ensures Valid() && State() == EmptyGate
    {
      lastTime := map[];
      lastText := map[];
    }

    /** The check of main.go:139-152, reading both maps. */
    method Evaluate(user: int, text: string, now: int) returns (d: Decision)
      ensures d == Decide(State(), user, text, now)
      ensures d == RateLimited <==> user in lastTime && now - lastTime[user] < RateLimitDuration
      ensures d == Duplicate ==> text == State().LastText(user)
    {
      var last, found := 0, user in lastTime;
      if found {
        last := lastTime[user];
      }
      var lastMsg := "";
      if user in lastText {
        lastMsg := lastText[user];
      }
      if found && now - last < RateLimitDuration {
        d := RateLimited;
      } else if lastMsg == text {
        d := Duplicate;
      } else {
        d := Allowed;
      }
    }

    /** The writes of main.go:177-178: only this user's two entries change. */
    method Commit(user: int, text: string, now: int)
      requires Valid()
      modifies this
      ensures Valid()
      ensures State() == Record(old(State()), user, text, now)
    {
      lastTime := lastTime[user := now];
      lastText := lastText[user := text];
    }
  }
}
