/**
 * The update loop of processUpdates (main.go:114-185). For each inbound
 * update it decides the one reply sent to the user's chat, whether the
 * classifier is asked, what is posted to the channel, and whether the gate
 * is committed. The classifier's answer and the outcome of posting to the
 * channel are inputs carried by the update, not calls. A shutdown is an
 * explicit Cancel event in the input.
 */
module Pipeline {
  import opened Wrappers
  import opened Verdict
  import opened Link
  import opened Gate

  const StartCommand: string := "/start"

  const RulesMessage: string :=
    "📝 Правила отправки сообщений:\n\n"
    + "1. Цель сообщения – выплеснуть эмоции и получить поддержку.\n"
    + "2. Сообщение должно быть преимущественно на русском языке.\n"
    + "3. Запрещены грубые матерные выражения."
  const RateLimitText: string := "⏳ Вы можете отправлять одно сообщение раз в 20 минут."
  const DuplicateText: string := "⚠️ Вы уже отправляли такое сообщение ранее."
  const CheckFailedText: string := "🚫 Ошибка проверки. Попробуйте позже."
  const PolicyText: string := "🚫 Сообщение не соответствует правилам.\n\n" + RulesMessage
  const PublishFailedText: string := "🚫 Ошибка публикации. Попробуйте позже."
  const PublishedText: string := "✅ Сообщение опубликовано: "

  /** The fields of an inbound Telegram message that the loop uses. */
  datatype Message = Message(userId: int, chatId: int, text: string)

  /** What sending the text to the channel returned. */
  datatype PublishOutcome = PublishError(err: string) | Posted(messageId: int)

  /**
   * One update from the updates channel, with the clock readings and the
   * outcomes of the external calls that processing it would see:
   * evaluatedAt is the instant of time.Since (main.go:141), committedAt that
   * of time.Now (main.go:177).
   */
  datatype Update = Update(
    message: Option<Message>,
    evaluatedAt: int,
    committedAt: int,
    classifier: ClassifierOutcome,
    publish: PublishOutcome)

  /** An arm of the select: a cancelled context or a delivered update. */
  datatype Event = Cancel | Delivered(update: Update)

  datatype Reply =
    | Rules
    | RateLimitedNotice
    | DuplicateNotice
    | CheckFailed
    | PolicyViolation
    | PublishFailed
    | Published(link: string)

  /**
   * The effect of one update: nothing at all, or one reply to the chat,
   * together with whether the classifier was asked and what was sent to
   * the channel.
   */
  datatype Outcome =
    | Ignored
    | Replied(chatId: int, reply: Reply, classifierQueried: bool, channelPost: Option<string>)

  datatype StepResult = StepResult(outcome: Outcome, gate: GateState)

  datatype Trace = Trace(outcomes: seq<Outcome>, final: GateState)

  /** The text bot.Send delivers for each reply. */
  function ReplyText(r: Reply): (text: string)
    ensures r.Published? ==> IsPrefix(PublishedText, text) && text[|PublishedText|..] == r.link
  {
    match r
    case Rules => RulesMessage
    case RateLimitedNotice => RateLimitText
    case DuplicateNotice => DuplicateText
    case CheckFailed => CheckFailedText
    case PolicyViolation => PolicyText
    case PublishFailed => PublishFailedText
    case Published(link) =>
      assert (PublishedText + link)[..|PublishedText|] == PublishedText;
      PublishedText + link
  }

  /** The policy-violation notice restates the rules. */
  lemma PolicyNoticeRestatesRules()
    ensures IsPrefix("🚫 Сообщение не соответствует правилам.\n\n", ReplyText(PolicyViolation))
    ensures ReplyText(PolicyViolation)[|ReplyText(PolicyViolation)| - |RulesMessage|..] == RulesMessage
  {
  }

  /** Updates skipped by main.go:126-128. */
  predicate Skipped(u: Update) {
    u.message.None? || u.message.value.text == ""
  }

  /** The body of the select's update arm, main.go:126-182, for one update. */
  function Step(g: GateState, channelName: string, u: Update): (r: StepResult)
    ensures r.outcome.Ignored? <==> Skipped(u)
  {
    if Skipped(u) then StepResult(Ignored, g)
    else
      var m := u.message.value;
      if m.text == StartCommand then StepResult(Replied(m.chatId, Rules, false, None), g)
      else
        match Decide(g, m.userId, m.text, u.evaluatedAt)
        case RateLimited => StepResult(Replied(m.chatId, RateLimitedNotice, false, None), g)
        case Duplicate => StepResult(Replied(m.chatId, DuplicateNotice, false, None), g)
        case Allowed =>
          var v := Interpret(u.classifier);
          if v.err.Some? then StepResult(Replied(m.chatId, CheckFailed, true, None), g)
          else if !v.approved then StepResult(Replied(m.chatId, PolicyViolation, true, None), g)
          else
            match u.publish
            case PublishError(_) => StepResult(Replied(m.chatId, PublishFailed, true, Some(m.text)), g)
            case Posted(id) =>
              StepResult(
                Replied(m.chatId, Published(ChannelLink(channelName, id)), true, Some(m.text)),
                Record(g, m.userId, m.text, u.committedAt))
  }

  /** The updates handled before the first Cancel. */
  function BeforeCancel(events: seq<Event>): (us: seq<Update>)
    ensures |us| <= |events|
  {
    if events == [] then []
    else match events[0]
      case Cancel => []
      case Delivered(u) => [u] + BeforeCancel(events[1..])
  }

  /**
   * The handled updates are exactly the delivered ones in front of the
   * first Cancel, in order, and whatever stops them is a Cancel.
   */
  lemma {:induction false} BeforeCancelIsDeliveredPrefix(events: seq<Event>)
    ensures var us := BeforeCancel(events);
      && (forall k :: 0 <= k < |us| ==> events[k] == Delivered(us[k]))
      && (|us| < |events| ==> events[|us|] == Cancel)
  {
    if events != [] && events[0].Delivered? {
      BeforeCancelIsDeliveredPrefix(events[1..]);
      var us := BeforeCancel(events);
      assert us == [events[0].update] + BeforeCancel(events[1..]);
      forall k | 1 <= k < |us| ensures events[k] == Delivered(us[k]) {
        assert events[k] == events[1..][k - 1];
      }
      if |us| < |events| {
        assert events[|us|] == events[1..][|us| - 1];
      }
    }
  }

  /** Handling updates one after another, starting from gate g. */
  function Run(g: GateState, channelName: string, us: seq<Update>): (t: Trace)
    ensures |t.outcomes| == |us|
  {
    if us == [] then Trace([], g)
    else
      var t := Run(g, channelName, us[..|us| - 1]);
      var r := Step(t.final, channelName, us[|us| - 1]);
      Trace(t.outcomes + [r.outcome], r.gate)
  }

  // ----- Properties of one step -----

  /** An update without a message or with empty text has no effect. */
  lemma SkippedHasNoEffect(g: GateState, channelName: string, u: Update)
    requires Skipped(u)
    ensures Step(g, channelName, u) == StepResult(Ignored, g)
  {
  }

  /**
   * "/start" gets the rules whatever the gate holds (so the gate is not
   * read), and leaves the gate as it was (so no submission slot is used).
   */
  lemma StartBypassesGate(g: GateState, h: GateState, channelName: string, u: Update)
    requires u.message.Some? && u.message.value.text == StartCommand
    ensures Step(g, channelName, u).outcome == Step(h, channelName, u).outcome
    ensures Step(g, channelName, u) == StepResult(Replied(u.message.value.chatId, Rules, false, None), g)
  {
  }

  /** Inside the cooldown every submission gets the cooldown notice, whatever its text. */
  lemma CooldownWhateverText(g: GateState, channelName: string, u: Update)
    requires !Skipped(u) && u.message.value.text != StartCommand
    requires u.message.value.userId in g.lastTime
    requires u.evaluatedAt - g.lastTime[u.message.value.userId] < RateLimitDuration
    ensures Step(g, channelName, u) == StepResult(Replied(u.message.value.chatId, RateLimitedNotice, false, None), g)
  {
  }

  /** Outside the cooldown, a repeat of the stored text gets the duplicate notice. */
  lemma RepeatIsDuplicate(g: GateState, channelName: string, u: Update)
    requires !Skipped(u) && u.message.value.text != StartCommand
    requires var user := u.message.value.userId;
      user in g.lastTime ==> u.evaluatedAt - g.lastTime[user] >= RateLimitDuration
    requires g.LastText(u.message.value.userId) == u.message.value.text
    ensures Step(g, channelName, u) == StepResult(Replied(u.message.value.chatId, DuplicateNotice, false, None), g)
  {
  }

  /** A user the gate has never seen is neither rate-limited nor a duplicate. */
  lemma NewUserReachesClassifier(g: GateState, channelName: string, u: Update)
    requires g.InSync() && !Skipped(u) && u.message.value.text != StartCommand
    requires u.message.value.userId !in g.lastTime
    ensures Step(g, channelName, u).outcome.classifierQueried
  {
    FirstSubmission(g, u.message.value.userId, u.message.value.text, u.evaluatedAt);
  }

  /** The classifier is asked exactly for a real submission the gate allows. */
  lemma ClassifierQueriedIffAllowed(g: GateState, channelName: string, u: Update)
    ensures Step(g, channelName, u).outcome.Replied? && Step(g, channelName, u).outcome.classifierQueried
        <==> !Skipped(u) && u.message.value.text != StartCommand
             && Decide(g, u.message.value.userId, u.message.value.text, u.evaluatedAt) == Allowed
  {
  }

  /**
   * Only a successful publish changes the gate, and then only as the commit
   * of the submitter's (committedAt, text); every other outcome leaves both
   * maps exactly as they were.
   */
  lemma OnlyPublishCommits(g: GateState, channelName: string, u: Update)
    ensures var r := Step(g, channelName, u);
      if r.outcome.Replied? && r.outcome.reply.Published? then
        r.gate == Record(g, u.message.value.userId, u.message.value.text, u.committedAt)
      else r.gate == g
  {
  }

  /**
   * A published reply means the classifier approved, the channel post
   * succeeded with the submitted text, and the link names the post.
   */
  lemma PublishedMeansApprovedAndPosted(g: GateState, channelName: string, u: Update)
    requires Step(g, channelName, u).outcome.Replied?
    requires Step(g, channelName, u).outcome.reply.Published?
    ensures !Skipped(u)
    ensures Interpret(u.classifier).approved && u.publish.Posted?
    ensures Step(g, channelName, u).outcome.channelPost == Some(u.message.value.text)
    ensures ParseLink(Step(g, channelName, u).outcome.reply.link)
            == Some((TrimPrefix(channelName, "@"), u.publish.messageId))
  {
    var o := Step(g, channelName, u).outcome;
    assert !Skipped(u);
    var m := u.message.value;
    assert m.text != StartCommand;
    assert Decide(g, m.userId, m.text, u.evaluatedAt) == Allowed;
    assert u.publish.Posted?;
    assert o.reply.link == ChannelLink(channelName, u.publish.messageId);
    ParseChannelLink(channelName, u.publish.messageId);
  }

  /**
   * The converse: a real submission that the gate allows, the classifier
   * approves and the channel accepts is published, linked and committed.
   */
  lemma ApprovedPostIsPublished(g: GateState, channelName: string, u: Update)
    requires !Skipped(u) && u.message.value.text != StartCommand
    requires Decide(g, u.message.value.userId, u.message.value.text, u.evaluatedAt) == Allowed
    requires Interpret(u.classifier).approved && u.publish.Posted?
    ensures var m := u.message.value;
      Step(g, channelName, u)
        == StepResult(Replied(m.chatId, Published(ChannelLink(channelName, u.publish.messageId)), true, Some(m.text)),
                      Record(g, m.userId, m.text, u.committedAt))
  {
  }

  /** Nothing is posted to the channel unless the classifier approved the text. */
  lemma ChannelPostNeedsApproval(g: GateState, channelName: string, u: Update)
    requires Step(g, channelName, u).outcome.Replied?
    requires Step(g, channelName, u).outcome.channelPost.Some?
    ensures Interpret(u.classifier).approved
    ensures Step(g, channelName, u).outcome.channelPost == Some(u.message.value.text)
  {
  }

  /**
   * After a classifier error, a rejection or a failed publish, the same
   * user may resubmit the same text at any later time and reach the
   * classifier again: the failure left no record behind.
   */
  lemma RetryAfterFailure(g: GateState, channelName: string, u: Update, retry: Update)
    requires Step(g, channelName, u).outcome.Replied?
    requires Step(g, channelName, u).outcome.reply in {CheckFailed, PolicyViolation, PublishFailed}
    requires retry.message.Some? && retry.message.value.userId == u.message.value.userId
    requires retry.message.value.text == u.message.value.text
    requires retry.evaluatedAt >= u.evaluatedAt
    ensures Step(Step(g, channelName, u).gate, channelName, retry).outcome.Replied?
    ensures Step(Step(g, channelName, u).gate, channelName, retry).outcome.classifierQueried
  {
    var m := u.message.value;
    AllowedStaysAllowed(g, m.userId, m.text, u.evaluatedAt, retry.evaluatedAt);
  }

  /** Every step keeps the two maps' key sets equal. */
  lemma StepKeepsSync(g: GateState, channelName: string, u: Update)
    requires g.InSync()
    ensures Step(g, channelName, u).gate.InSync()
  {
  }

  /** A step that publishes nothing for user leaves user's entries alone. */
  lemma StepKeepsOtherRecords(g: GateState, channelName: string, u: Update, user: int)
    requires !PublishedBy([u], [Step(g, channelName, u).outcome], 0, user)
    ensures SameRecord(g, Step(g, channelName, u).gate, user)
  {
    OnlyPublishCommits(g, channelName, u);
  }

  // ----- Properties of a run -----

  /** Update k of us was published on behalf of user. */
  predicate PublishedBy(us: seq<Update>, outcomes: seq<Outcome>, k: int, user: int) {
    && 0 <= k < |us| && k < |outcomes|
    && outcomes[k].Replied? && outcomes[k].reply.Published?
    && us[k].message.Some? && us[k].message.value.userId == user
  }

  /** Publications before the last update are the same in the shorter run. */
  lemma PublishedByInPrefix(g: GateState, channelName: string, us: seq<Update>, k: int, user: int)
    requires us != [] && k < |us| - 1
    ensures PublishedBy(us[..|us| - 1], Run(g, channelName, us[..|us| - 1]).outcomes, k, user)
        <==> PublishedBy(us, Run(g, channelName, us).outcomes, k, user)
  {
    if 0 <= k {
      assert us[..|us| - 1][k] == us[k];
      assert Run(g, channelName, us[..|us| - 1]).outcomes[k] == Run(g, channelName, us).outcomes[k];
    }
  }

  lemma {:induction false} RunKeepsSync(g: GateState, channelName: string, us: seq<Update>)
    requires g.InSync()
    ensures Run(g, channelName, us).final.InSync()
  {
    if us != [] {
      RunKeepsSync(g, channelName, us[..|us| - 1]);
      StepKeepsSync(Run(g, channelName, us[..|us| - 1]).final, channelName, us[|us| - 1]);
    }
  }

  /** The outcome of update k is decided by the gate as left by the updates before it. */
  lemma {:induction false} RunPrefix(g: GateState, channelName: string, us: seq<Update>, k: nat)
    requires k < |us|
    ensures Run(g, channelName, us[..k + 1]).outcomes == Run(g, channelName, us).outcomes[..k + 1]
    ensures Run(g, channelName, us).outcomes[k]
            == Step(Run(g, channelName, us[..k]).final, channelName, us[k]).outcome
  {
    var n := |us|;
    assert us[..k + 1][..k] == us[..k];
    if k + 1 < n {
      var pre := us[..n - 1];
      RunPrefix(g, channelName, pre, k);
      assert pre[..k + 1] == us[..k + 1] && pre[..k] == us[..k];
    } else {
      assert us[..k + 1] == us;
    }
  }

  /**
   * A user who published nothing in a run keeps exactly the entries the
   * gate held for them before it.
   */
  lemma {:induction false} UnpublishedUserKeepsRecord(g: GateState, channelName: string, us: seq<Update>, user: int)
    requires forall k :: !PublishedBy(us, Run(g, channelName, us).outcomes, k, user)
    ensures SameRecord(g, Run(g, channelName, us).final, user)
  {
    if us != [] {
      var n := |us|;
      var pre := us[..n - 1];
      var t := Run(g, channelName, pre);
      forall k ensures !PublishedBy(pre, t.outcomes, k, user) {
        if k < n - 1 {
          PublishedByInPrefix(g, channelName, us, k, user);
        }
      }
      UnpublishedUserKeepsRecord(g, channelName, pre, user);
      assert !PublishedBy(us, Run(g, channelName, us).outcomes, n - 1, user);
      StepKeepsOtherRecords(t.final, channelName, us[n - 1], user);
    }
  }

  /**
   * After a run, a user's entries are the (committedAt, text) of the last
   * update published for them.
   */
  lemma {:induction false} LastPublishIsRecorded(g: GateState, channelName: string, us: seq<Update>, user: int, k: nat)
    requires PublishedBy(us, Run(g, channelName, us).outcomes, k, user)
    requires forall k2 :: k < k2 ==> !PublishedBy(us, Run(g, channelName, us).outcomes, k2, user)
    ensures var final := Run(g, channelName, us).final;
      user in final.lastTime && final.lastTime[user] == us[k].committedAt
      && final.LastText(user) == us[k].message.value.text
  {
    var n := |us|;
    var pre := us[..n - 1];
    var t := Run(g, channelName, pre);
    if k == n - 1 {
      OnlyPublishCommits(t.final, channelName, us[n - 1]);
    } else {
      PublishedByInPrefix(g, channelName, us, k, user);
      forall k2 | k < k2 ensures !PublishedBy(pre, t.outcomes, k2, user) {
        if k2 < n - 1 {
          PublishedByInPrefix(g, channelName, us, k2, user);
        }
      }
      LastPublishIsRecorded(g, channelName, pre, user, k);
      assert !PublishedBy(us, Run(g, channelName, us).outcomes, n - 1, user);
      StepKeepsOtherRecords(t.final, channelName, us[n - 1], user);
      assert pre[k] == us[k];
    }
  }

  /**
   * Two consecutive publications for the same user are a full cooldown
   * apart and carry different texts.
   */
  lemma ConsecutivePublications(g: GateState, channelName: string, us: seq<Update>, user: int, i: nat, j: nat)
    requires i < j
    requires PublishedBy(us, Run(g, channelName, us).outcomes, i, user)
    requires PublishedBy(us, Run(g, channelName, us).outcomes, j, user)
    requires forall k :: i < k < j ==> !PublishedBy(us, Run(g, channelName, us).outcomes, k, user)
    ensures us[j].evaluatedAt - us[i].committedAt >= RateLimitDuration
    ensures us[j].message.value.text != us[i].message.value.text
    ensures us[j].evaluatedAt <= us[j].committedAt ==> us[j].committedAt - us[i].committedAt >= RateLimitDuration
  {
    var outs := Run(g, channelName, us).outcomes;
    var pre := us[..j];
    var t := Run(g, channelName, pre);
    RunPrefix(g, channelName, us, j);
    assert t.outcomes == outs[..j] by {
      RunPrefix(g, channelName, us, j - 1);
    }
    assert pre[i] == us[i];
    forall k2 | i < k2 ensures !PublishedBy(pre, t.outcomes, k2, user) {
      if k2 < |pre| {
        assert pre[k2] == us[k2] && t.outcomes[k2] == outs[k2];
        assert !PublishedBy(us, outs, k2, user);
      }
    }
    LastPublishIsRecorded(g, channelName, pre, user, i);
    var m := us[j].message.value;
    assert Decide(t.final, user, m.text, us[j].evaluatedAt) == Allowed;
  }

  // ----- End-to-end scenarios -----

  const SampleText: string := "Помогите мне, очень тяжело на душе"

  /** A new user's approved submission is published, committed and linked. */
  lemma ScenarioPublished()
    ensures Step(EmptyGate, "@cryout", Update(Some(Message(5, 50, SampleText)), 0, 1, Completion("да"), Posted(7)))
         == StepResult(Replied(50, Published("https://t.me/cryout/7"), true, Some(SampleText)),
                       Record(EmptyGate, 5, SampleText, 1))
  {
    var u := Update(Some(Message(5, 50, SampleText)), 0, 1, Completion("да"), Posted(7));
    assert !Skipped(u) && SampleText != StartCommand by {
      assert SampleText[0] != StartCommand[0];
    }
    assert Interpret(u.classifier).approved by {
      PaddedIsApproved("да", 0, 2);
    }
    FirstSubmission(EmptyGate, 5, SampleText, 0);
    ApprovedPostIsPublished(EmptyGate, "@cryout", u);
    SampleLink();
  }

  /**
   * The same text resent a minute after publication gets the cooldown
   * notice: the rate-limit check comes before the duplicate check.
   */
  lemma ScenarioImmediateResend()
    ensures var first := Update(Some(Message(5, 50, SampleText)), 0, 1, Completion("да"), Posted(7));
      var again := Update(Some(Message(5, 50, SampleText)), Minute, Minute, Completion("да"), Posted(8));
      Run(EmptyGate, "@cryout", [first, again])
        == Trace([Replied(50, Published("https://t.me/cryout/7"), true, Some(SampleText)),
                  Replied(50, RateLimitedNotice, false, None)],
                 Record(EmptyGate, 5, SampleText, 1))
  {
    var first := Update(Some(Message(5, 50, SampleText)), 0, 1, Completion("да"), Posted(7));
    var again := Update(Some(Message(5, 50, SampleText)), Minute, Minute, Completion("да"), Posted(8));
    var g1 := Record(EmptyGate, 5, SampleText, 1);
    assert [first][..0] == [];
    ScenarioPublished();
    assert Run(EmptyGate, "@cryout", [first])
        == Trace([Replied(50, Published("https://t.me/cryout/7"), true, Some(SampleText))], g1);
    assert [first, again][..1] == [first];
    CooldownWhateverText(g1, "@cryout", again);
  }

  /** A text the classifier answers "нет" to is refused and not committed. */
  lemma ScenarioRejected()
    ensures Step(EmptyGate, "@cryout", Update(Some(Message(6, 60, "текст")), 0, 0, Completion("нет"), Posted(9)))
         == StepResult(Replied(60, PolicyViolation, true, None), EmptyGate)
  {
    SampleNegativeRejected();
    FirstSubmission(EmptyGate, 6, "текст", 0);
  }

  /** A classifier error gets the retry notice and is not committed. */
  lemma ScenarioClassifierError()
    ensures Step(EmptyGate, "@cryout", Update(Some(Message(6, 60, "текст")), 0, 0, ClassifierError("timeout"), Posted(9)))
         == StepResult(Replied(60, CheckFailed, true, None), EmptyGate)
  {
    FirstSubmission(EmptyGate, 6, "текст", 0);
  }

  // ----- The imperative loop -----

  /** Handling one more update extends the run by one step. */
  lemma RunAppend(g: GateState, channelName: string, us: seq<Update>, u: Update)
    ensures var t := Run(g, channelName, us);
      var r := Step(t.final, channelName, u);
      Run(g, channelName, us + [u]) == Trace(t.outcomes + [r.outcome], r.gate)
  {
    assert (us + [u])[..|us|] == us;
  }

  /** A delivered update at position i is the next one handled. */
  lemma BeforeCancelDelivered(events: seq<Event>, i: nat)
    requires i < |events| && events[i].Delivered?
    ensures BeforeCancel(events[i..]) == [events[i].update] + BeforeCancel(events[i + 1..])
  {
    assert events[i..][1..] == events[i + 1..];
  }

  /** The update arm of the select, main.go:125-182, against a gate object. */
  method HandleUpdate(gate: SubmissionGate, channelName: string, u: Update) returns (o: Outcome)
    requires gate.Valid()
    modifies gate
    ensures gate.Valid()
    ensures Step(old(gate.State()), channelName, u) == StepResult(o, gate.State())
  {
    if u.message.None? || u.message.value.text == "" {
      return Ignored;
    }
    var m := u.message.value;
    if m.text == StartCommand {
      return Replied(m.chatId, Rules, false, None);
    }
    var d := gate.Evaluate(m.userId, m.text, u.evaluatedAt);
    if d == RateLimited {
      return Replied(m.chatId, RateLimitedNotice, false, None);
    }
    if d == Duplicate {
      return Replied(m.chatId, DuplicateNotice, false, None);
    }
    var v := Interpret(u.classifier);
    if v.err.Some? {
      return Replied(m.chatId, CheckFailed, true, None);
    }
    if !v.approved {
      return Replied(m.chatId, PolicyViolation, true, None);
    }
    match u.publish
    case PublishError(_) =>
      o := Replied(m.chatId, PublishFailed, true, Some(m.text));
    case Posted(id) =>
      gate.Commit(m.userId, m.text, u.committedAt);
      o := Replied(m.chatId, Published(ChannelLink(channelName, id)), true, Some(m.text));
  }

  /**
   * The for/select loop of main.go:120-184: handles delivered updates in
   * order and returns at the first Cancel, dropping what follows it.
   */
  method ProcessUpdates(gate: SubmissionGate, channelName: string, events: seq<Event>) returns (outcomes: seq<Outcome>)
    requires gate.Valid()
    modifies gate
    ensures gate.Valid()
    ensures Run(old(gate.State()), channelName, BeforeCancel(events)) == Trace(outcomes, gate.State())
  {
    outcomes := [];
    ghost var handled: seq<Update> := [];
    var i := 0;
    while i < |events| && events[i].Delivered?
      invariant 0 <= i <= |events|
      invariant gate.Valid()
      invariant BeforeCancel(events) == handled + BeforeCancel(events[i..])
      invariant Run(old(gate.State()), channelName, handled) == Trace(outcomes, gate.State())
    {
      var u := events[i].update;
      BeforeCancelDelivered(events, i);
      var o := HandleUpdate(gate, channelName, u);
      RunAppend(old(gate.State()), channelName, handled, u);
      outcomes := outcomes + [o];
      handled := handled + [u];
      i := i + 1;
    }
    assert BeforeCancel(events[i..]) == [];
    assert handled + [] == handled;
  }
}
