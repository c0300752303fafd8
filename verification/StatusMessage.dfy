/**
 * The status message of one chat: periodic renders and forced refreshes that share a one-token
 * channel as a mutex, a throttle and a cache of what was rendered last.
 *
 * The calls run on the chat's strand, so a step of the protocol is what a call does between two
 * suspensions. Edits and sends reach the chat in a step of their own, before or after the call is
 * answered or gives up, and a call may be interrupted by an exception at any suspension.
 */
module StatusMessage {
  import opened Runs

  datatype Kind = Periodic | Forced

  /** Where a call is suspended. `now` is the time at which it got the token; `posted` is the new message's id, 0 while there is none. */
  datatype Call =
    | Waiting
    | Editing(kind: Kind, now: int, html: string, id: nat, landed: bool)
    | Sending(kind: Kind, now: int, html: string, retry: bool, posted: nat)
    | Over

  /** `message`, `lastEdit` and `cached` are the program's; `shown` is what the chat displays. */
  datatype State = State(
    throttle: int,
    clock: int,
    tokens: nat,
    calls: map<nat, Call>,
    message: nat,
    lastEdit: int,
    cached: string,
    shown: map<nat, string>,
    used: set<nat>,          // ids of all messages the calls ever posted
    unsure: set<(nat, string)>,        // every edit that was not confirmed: message and text
    pending: multiset<(nat, string)>,  // those of them that may still take effect
    lost: multiset<string>,            // texts of unconfirmed sends that may still arrive
    failedEdits: nat,
    failedSends: nat,
    confirmed: nat,          // sends answered with an id
    periodic: seq<int>)      // times of the periodic updates of an existing message

  datatype Answer = Confirmed | Failed | Interrupted

  datatype Act =
    | Tick(clock: int)
    | Render(c: nat, html: string)
    | Refresh(c: nat)
    | Acquire(c: nat, html: string)
    | GiveUp(c: nat)
    | EditLands(c: nat)
    | EditAnswers(c: nat, answer: Answer)
    | SendLands(c: nat, id: nat)
    | SendAnswers(c: nat, answer: Answer)
    | Delete(id: nat)
    | LateEdit(id: nat, html: string)
    | LateSend(id: nat, html: string)

  predicate Enabled(s: State, a: Act)
  {
    match a
    case Tick(clock) => s.clock <= clock
    case Render(c, _) => c !in s.calls
    case Refresh(c) => c !in s.calls
    case Acquire(c, _) => c in s.calls && s.calls[c].Waiting? && s.tokens > 0
    case GiveUp(c) => c in s.calls && s.calls[c].Waiting?
    case EditLands(c) => c in s.calls && s.calls[c].Editing? && !s.calls[c].landed && s.calls[c].id in s.shown
    case EditAnswers(c, answer) => c in s.calls && s.calls[c].Editing? && (answer.Confirmed? ==> s.calls[c].landed)
    case SendLands(c, id) => c in s.calls && s.calls[c].Sending? && s.calls[c].posted == 0 && id != 0 && id !in s.used
    case SendAnswers(c, answer) => c in s.calls && s.calls[c].Sending? && (answer.Confirmed? ==> s.calls[c].posted != 0)
    case Delete(id) => id in s.shown
    case LateEdit(id, html) => (id, html) in s.pending && id in s.shown
    case LateSend(id, html) => html in s.lost && id != 0 && id !in s.used
  }

  /** The guard's release: a send on a channel of capacity one, refused if the token is there already. */
  function Released(s: State, c: nat): State
  {
    s.(tokens := if s.tokens < 1 then s.tokens + 1 else s.tokens, calls := s.calls[c := Over])
  }

  /** From the token on: skip, edit the message there is, or send the first one. */
  function Proceed(s: State, c: nat, kind: Kind, html: string): State
  {
    s.(calls := s.calls[c := if s.message != 0 then Editing(kind, s.clock, html, s.message, false)
                             else Sending(kind, s.clock, html, false, 0)])
  }

  function RenderStep(s: State, c: nat, html: string): State
  {
    if s.tokens == 0 then s.(calls := s.calls[c := Over])
    else
      var held := s.(tokens := s.tokens - 1);
      if s.message != 0 && s.clock - s.lastEdit < s.throttle then Released(held, c)
      else if s.message != 0 && html == s.cached then Released(held, c)
      else Proceed(held, c, Periodic, html)
  }

  function AcquireStep(s: State, c: nat, html: string): State
    requires s.tokens > 0
  {
    var held := s.(tokens := s.tokens - 1);
    if s.message != 0 && html == s.cached then Released(held.(lastEdit := s.clock), c)
    else Proceed(held, c, Forced, html)
  }

  /** What a call stores after a confirmed edit or send. */
  function Stored(s: State, call: Call): State
    requires call.Editing? || call.Sending?
  {
    s.(lastEdit := if call.kind.Periodic? then call.now else s.clock, cached := call.html,
       periodic := if call.kind.Periodic? && (call.Sending? ==> call.retry) then s.periodic + [call.now] else s.periodic)
  }

  /** An edit that was not confirmed may have taken effect, or may still do so. */
  function Unconfirmed(s: State, call: Call): State
    requires call.Editing?
  {
    var edit := (call.id, call.html);
    s.(unsure := s.unsure + {edit}, pending := if call.landed then s.pending else s.pending + multiset{edit})
  }

  function EditAnswerStep(s: State, c: nat, answer: Answer): State
    requires Enabled(s, EditAnswers(c, answer))
  {
    var call := s.calls[c];
    match answer
    case Confirmed => Released(Stored(s, call), c)
    case Failed =>
      Unconfirmed(s, call).(failedEdits := s.failedEdits + 1,
         calls := s.calls[c := Sending(call.kind, call.now, call.html, true, 0)])
    case Interrupted => Released(Unconfirmed(s, call), c)
  }

  function SendAnswerStep(s: State, c: nat, answer: Answer): State
    requires Enabled(s, SendAnswers(c, answer))
  {
    var call := s.calls[c];
    if answer.Confirmed? then Released(Stored(s, call).(message := call.posted, confirmed := s.confirmed + 1), c)
    else
      Released(s.(failedSends := s.failedSends + 1, lost := if call.posted == 0 then s.lost + multiset{call.html} else s.lost), c)
  }

  function Apply(s: State, a: Act): State
    requires Enabled(s, a)
  {
    match a
    case Tick(clock) => s.(clock := clock)
    case Render(c, html) => RenderStep(s, c, html)
    case Refresh(c) => s.(calls := s.calls[c := Waiting])
    case Acquire(c, html) => AcquireStep(s, c, html)
    case GiveUp(c) => s.(calls := s.calls[c := Over])
    case EditLands(c) => s.(shown := s.shown[s.calls[c].id := s.calls[c].html], calls := s.calls[c := s.calls[c].(landed := true)])
    case EditAnswers(c, answer) => EditAnswerStep(s, c, answer)
    case SendLands(c, id) =>
      s.(shown := s.shown[id := s.calls[c].html], used := s.used + {id}, calls := s.calls[c := s.calls[c].(posted := id)])
    case SendAnswers(c, answer) => SendAnswerStep(s, c, answer)
    case Delete(id) => s.(shown := s.shown - {id})
    case LateEdit(id, html) => s.(shown := s.shown[id := html], pending := s.pending - multiset{(id, html)})
    case LateSend(id, html) => s.(shown := s.shown[id := html], used := s.used + {id}, lost := s.lost - multiset{html})
  }

  ghost predicate Init(s: State)
  {
    s.clock >= 0 && s == State(s.throttle, s.clock, 1, map[], 0, 0, "", map[], {}, {}, multiset{}, multiset{}, 0, 0, 0, [])
  }

  ghost predicate Next(s: State, s': State)
  {
    exists a :: Enabled(s, a) && s' == Apply(s, a)
  }

  // Invariants

  predicate Holds(call: Call)
  {
    call.Editing? || call.Sending?
  }

  function Holders(s: State): set<nat>
  {
    set c | c in s.calls && Holds(s.calls[c])
  }

  /** The token is in the channel and nobody holds it, or one call does. */
  ghost predicate Exclusive(s: State)
  {
    && s.tokens <= 1
    && (s.tokens == 1 ==> forall c :: c in s.calls ==> !Holds(s.calls[c]))
    && (s.tokens == 0 ==> exists c :: c in s.calls && Holds(s.calls[c]))
    && (forall c, d :: c in s.calls && d in s.calls && Holds(s.calls[c]) && Holds(s.calls[d]) ==> c == d)
  }

  /** A periodic call that updates an existing message found the throttle interval over. */
  predicate Timed(s: State, call: Call)
    requires Holds(call)
  {
    && s.lastEdit <= call.now <= s.clock
    && (call.kind.Periodic? && (call.Sending? ==> call.retry) ==> call.now - s.lastEdit >= s.throttle)
  }

  /** What the chat shows of the message that this call works on. */
  ghost predicate Tracked(s: State, call: Call)
    requires Holds(call)
  {
    match call
    case Editing(_, _, html, id, landed) =>
      && id == s.message != 0
      && (landed && id in s.shown ==> s.shown[id] == html || (id, s.shown[id]) in s.unsure)
    case Sending(_, _, html, retry, posted) =>
      && (retry <==> s.message != 0)
      && (posted != 0 ==> posted in s.used && posted != s.message && forall e :: e in s.unsure ==> e.0 != posted)
      && (posted in s.shown && posted != 0 ==> s.shown[posted] == html)
  }

  /** The books, with a call that is about to replace the message or has posted one already. */
  predicate Counted(s: State, call: Call)
  {
    && (call.Sending? && call.retry ==> s.confirmed <= s.failedEdits)
    && (call.Sending? && call.posted != 0 ==> |s.used| + |s.lost| == s.confirmed + s.failedSends + 1)
  }

  predicate MidEdit(call: Call)
  {
    call.Editing? && call.landed
  }

  predicate MidSend(call: Call)
  {
    call.Sending? && call.posted != 0
  }

  ghost predicate CacheIsShown(s: State)
  {
    s.message in s.shown && s.message != 0 && (forall c :: c in s.calls ==> !MidEdit(s.calls[c]))
    ==> s.shown[s.message] == s.cached || (s.message, s.shown[s.message]) in s.unsure
  }

  ghost predicate Books(s: State)
  {
    && 0 !in s.used && s.shown.Keys <= s.used
    && (forall e :: e in s.unsure ==> e.0 in s.used) && (forall e :: e in s.pending ==> e in s.unsure)
    && (s.message == 0 <==> s.confirmed == 0)
    && (s.message != 0 ==> s.message in s.used)
    && s.confirmed <= 1 + s.failedEdits
    && ((forall c :: c in s.calls ==> !MidSend(s.calls[c])) ==> |s.used| + |s.lost| == s.confirmed + s.failedSends)
  }

  ghost predicate Paced(s: State)
  {
    && s.lastEdit <= s.clock
    && (forall i :: 0 <= i < |s.periodic| ==> s.periodic[i] <= s.lastEdit)
    && (forall i, j :: 0 <= i < j < |s.periodic| ==> s.periodic[j] - s.periodic[i] >= s.throttle)
  }

  ghost predicate Inv(s: State)
  {
    && Exclusive(s)
    && (forall c :: c in s.calls && Holds(s.calls[c]) ==>
          Timed(s, s.calls[c]) && Tracked(s, s.calls[c]) && Counted(s, s.calls[c]))
    && CacheIsShown(s)
    && Books(s)
    && Paced(s)
  }

  lemma StepInv(s: State, a: Act)
    requires Inv(s) && Enabled(s, a)
    ensures Inv(Apply(s, a))
  {
    match a
    case Render(c, html) => RenderInv(s, c, html);
    case Acquire(c, html) => AcquireInv(s, c, html);
    case EditLands(c) => EditLandsInv(s, c);
    case EditAnswers(c, answer) => EditAnswersInv(s, c, answer);
    case SendLands(c, id) => SendLandsInv(s, c, id);
    case SendAnswers(c, answer) => SendAnswersInv(s, c, answer);
    case Delete(id) => DeleteInv(s, id);
    case LateEdit(id, html) => LateEditInv(s, id, html);
    case LateSend(id, html) => LateSendInv(s, id, html);
    case _ => OtherInv(s, a);
  }

  lemma RenderInv(s: State, c: nat, html: string)
    requires Inv(s) && Enabled(s, Render(c, html))
    ensures Inv(RenderStep(s, c, html))
  {
    if s.tokens == 0 {
      DroppedInv(s, c, html);
    } else {
      var s' := RenderStep(s, c, html);
      assert s'.tokens == 0 ==> Holds(s'.calls[c]);
    }
  }

  /** A render that finds the token taken is dropped. */
  lemma DroppedInv(s: State, c: nat, html: string)
    requires Inv(s) && Enabled(s, Render(c, html)) && s.tokens == 0
    ensures Inv(RenderStep(s, c, html))
  {
    var s' := RenderStep(s, c, html);
    var d :| d in s.calls && Holds(s.calls[d]);
    assert Holds(s'.calls[d]);
  }

  lemma AcquireInv(s: State, c: nat, html: string)
    requires Inv(s) && Enabled(s, Acquire(c, html))
    ensures Inv(AcquireStep(s, c, html))
  {
    var s' := AcquireStep(s, c, html);
    assert s'.tokens == 0 ==> Holds(s'.calls[c]);
  }

  lemma EditLandsInv(s: State, c: nat)
    requires Inv(s) && Enabled(s, EditLands(c))
    ensures Inv(Apply(s, EditLands(c)))
  {
    var s' := Apply(s, EditLands(c));
    assert s'.tokens == 0 ==> Holds(s'.calls[c]);
  }

  lemma EditAnswersInv(s: State, c: nat, answer: Answer)
    requires Inv(s) && Enabled(s, EditAnswers(c, answer))
    ensures Inv(EditAnswerStep(s, c, answer))
  {
    var s' := EditAnswerStep(s, c, answer);
    assert s'.tokens == 0 ==> Holds(s'.calls[c]);
  }

  lemma SendLandsInv(s: State, c: nat, id: nat)
    requires Inv(s) && Enabled(s, SendLands(c, id))
    ensures Inv(Apply(s, SendLands(c, id)))
  {
    var s' := Apply(s, SendLands(c, id));
    assert s'.tokens == 0 ==> Holds(s'.calls[c]);
  }

  lemma SendAnswersInv(s: State, c: nat, answer: Answer)
    requires Inv(s) && Enabled(s, SendAnswers(c, answer))
    ensures Inv(SendAnswerStep(s, c, answer))
  {
  }

  lemma DeleteInv(s: State, id: nat)
    requires Inv(s) && Enabled(s, Delete(id))
    ensures Inv(Apply(s, Delete(id)))
  {
    var s' := Apply(s, Delete(id));
    assert s'.calls == s.calls && s'.tokens == s.tokens;
  }

  lemma LateEditInv(s: State, id: nat, html: string)
    requires Inv(s) && Enabled(s, LateEdit(id, html))
    ensures Inv(Apply(s, LateEdit(id, html)))
  {
    var s' := Apply(s, LateEdit(id, html));
    assert s'.calls == s.calls && s'.tokens == s.tokens;
  }

  lemma LateSendInv(s: State, id: nat, html: string)
    requires Inv(s) && Enabled(s, LateSend(id, html))
    ensures Inv(Apply(s, LateSend(id, html)))
  {
    var s' := Apply(s, LateSend(id, html));
    assert s'.calls == s.calls && s'.tokens == s.tokens;
  }

  lemma OtherInv(s: State, a: Act)
    requires Inv(s) && Enabled(s, a)
    requires a.Tick? || a.Refresh? || a.GiveUp?
    ensures Inv(Apply(s, a))
  {
    var s' := Apply(s, a);
    if s.tokens == 0 {
      var d :| d in s.calls && Holds(s.calls[d]);
      assert Holds(s'.calls[d]);
    }
  }

  lemma Invariant(s: State)
    requires Reachable(Init, Next, s)
    ensures Inv(s)
  {
    forall x, y | Inv(x) && Next(x, y) ensures Inv(y) {
      var a :| Enabled(x, a) && y == Apply(x, a);
      StepInv(x, a);
    }
    ReachableInvariant(Init, Next, Inv, s);
  }

  // What the protocol promises

  /** A call changes the chat's state only while it holds the one token: the tokens in the channel and the calls that hold it are always one together, so a release never finds the channel full. */
  lemma OneHolder(s: State)
    requires Reachable(Init, Next, s)
    ensures s.tokens + |Holders(s)| == 1
  {
    Invariant(s);
    if s.tokens == 0 {
      var c :| c in s.calls && Holds(s.calls[c]);
      assert Holders(s) == {c};
    } else {
      assert Holders(s) == {};
    }
  }

  /** The cached message, unless it was deleted, displays the cached text, the text of an edit under way, or the text of an edit of it that was never confirmed. */
  lemma CacheIsTrue(s: State)
    requires Reachable(Init, Next, s)
    requires s.message != 0 && s.message in s.shown
    ensures s.shown[s.message] == s.cached
            || (exists c :: c in s.calls && MidEdit(s.calls[c]) && s.calls[c].id == s.message && s.shown[s.message] == s.calls[c].html)
            || (s.message, s.shown[s.message]) in s.unsure
  {
    Invariant(s);
    if c :| c in s.calls && MidEdit(s.calls[c]) {
      assert Holds(s.calls[c]);
    }
  }

  /** What can happen while no call runs: time passes, messages are deleted, and edits and sends that were never confirmed take effect, each of them once. */
  ghost predicate Unattended(s: State, s': State)
  {
    exists a: Act :: (a.Tick? || a.Delete? || a.LateEdit? || a.LateSend?) && Enabled(s, a) && s' == Apply(s, a)
  }

  /** Until a call runs again, the message, if it is there, displays the cached text. */
  ghost predicate StaysTrue(s: State)
  {
    forall later :: Leads(Unattended, s, later) && s.message in later.shown ==> later.shown[s.message] == s.cached
  }

  /** The text is the cached one, and no edit of the message that may still take effect has another. */
  ghost predicate Settled(s: State)
  {
    && (s.message in s.shown ==> s.shown[s.message] == s.cached)
    && (forall e :: e in s.pending && e.0 == s.message ==> e.1 == s.cached)
  }

  /** With no call under way, a displayed message stays true to the cache if and only if it is true to it now and no edit that may still take effect carries another text. */
  lemma CacheIsTrueExactly(s: State)
    requires Reachable(Init, Next, s)
    requires s.message != 0 && s.message in s.shown && Holders(s) == {}
    ensures StaysTrue(s) <==> Settled(s)
  {
    Invariant(s);
    if Settled(s) {
      SettledStays(s);
    } else if s.shown[s.message] != s.cached {
      NoStep(Unattended, s);
    } else {
      var e :| e in s.pending && e.0 == s.message && e.1 != s.cached;
      LateEditShows(s, e.1);
    }
  }

  lemma SettledStays(s: State)
    requires s.message in s.used && Settled(s)
    ensures StaysTrue(s)
  {
    var inv := (x: State) => x.message == s.message && x.cached == s.cached && x.message in x.used && Settled(x);
    forall x, y | inv(x) && Unattended(x, y) ensures inv(y) {
      SettledStep(x, y);
    }
    forall later | Leads(Unattended, s, later) && s.message in later.shown ensures later.shown[s.message] == s.cached {
      LeadsInvariant(Unattended, inv, s, later);
    }
  }

  lemma SettledStep(x: State, y: State)
    requires x.message in x.used && Settled(x) && Unattended(x, y)
    ensures y.message == x.message && y.cached == x.cached && y.message in y.used && Settled(y)
  {
    var a: Act :| (a.Tick? || a.Delete? || a.LateEdit? || a.LateSend?) && Enabled(x, a) && y == Apply(x, a);
    if a.LateEdit? {
      SettledEdit(x, a.id, a.html);
    }
  }

  /** Any edit of the message that may still take effect has the cached text. */
  lemma SettledEdit(x: State, id: nat, html: string)
    requires Settled(x) && Enabled(x, LateEdit(id, html))
    ensures Settled(Apply(x, LateEdit(id, html)))
  {
    assert (id, html) in x.pending && (id, html).0 == id;
    forall e | e in Apply(x, LateEdit(id, html)).pending ensures e in x.pending {}
  }

  /** An edit that may still take effect does so, and the program's cache is left behind. */
  lemma LateEditShows(s: State, html: string)
    requires s.message in s.shown && (s.message, html) in s.pending && html != s.cached
    ensures !StaysTrue(s)
  {
    var s' := Apply(s, LateEdit(s.message, html));
    assert Enabled(s, LateEdit(s.message, html));
    OneStep(Unattended, s, s');
    assert s'.shown[s.message] == html;
  }

  /** In terms of what the program has seen: if no edit of the message that failed or was interrupted had another text, the cache is true and stays true. */
  lemma NoOtherTextNoDoubt(s: State)
    requires Reachable(Init, Next, s)
    requires s.message != 0 && s.message in s.shown && Holders(s) == {}
    requires forall e :: e in s.unsure && e.0 == s.message ==> e.1 == s.cached
    ensures StaysTrue(s)
  {
    Invariant(s);
    CacheIsTrue(s);
    forall c | c in s.calls ensures !MidEdit(s.calls[c]) {
      assert c !in Holders(s);
    }
    CacheIsTrueExactly(s);
  }

  lemma LastEditStep(s: State, a: Act)
    requires Inv(s) && Enabled(s, a)
    ensures Apply(s, a).lastEdit >= s.lastEdit
  {
    if a.EditAnswers? || a.SendAnswers? {
      assert Holds(s.calls[a.c]);
    }
  }

  /** The time of the last edit never goes back, however calls overlap and whenever they sampled the clock. */
  lemma LastEditNeverDecreases(s: State, later: State)
    requires Reachable(Init, Next, s) && Leads(Next, s, later)
    ensures later.lastEdit >= s.lastEdit
  {
    Invariant(s);
    var inv := (x: State) => Inv(x) && x.lastEdit >= s.lastEdit;
    forall x, y | inv(x) && Next(x, y) ensures inv(y) {
      var a :| Enabled(x, a) && y == Apply(x, a);
      StepInv(x, a);
      LastEditStep(x, a);
    }
    LeadsInvariant(Next, inv, s, later);
  }

  /** The update of an existing message by a periodic call comes at least a throttle interval after the last edit of any kind. */
  lemma PeriodicWaits(s: State, a: Act)
    requires Reachable(Init, Next, s) && Enabled(s, a)
    requires Apply(s, a).periodic != s.periodic
    ensures Apply(s, a).lastEdit - s.lastEdit >= s.throttle
  {
    Invariant(s);
    assert Holds(s.calls[a.c]);
  }

  /** Over a whole run, n + 1 periodic updates take at least n throttle intervals. */
  lemma {:induction false} PeriodicPace(s: State, i: nat, j: nat)
    requires Reachable(Init, Next, s)
    requires i <= j < |s.periodic|
    ensures s.periodic[j] - s.periodic[i] >= (j - i) * s.throttle
    decreases j
  {
    if i < j {
      Invariant(s);
      PeriodicPace(s, i, j - 1);
      assert (j - i) * s.throttle == (j - 1 - i) * s.throttle + s.throttle;
    }
  }

  /** A second message is the price of a failed edit: there is at most one confirmed message more than edits that failed, and at most as many more in the chat as sends that were not confirmed. */
  lemma NoSecondMessage(s: State)
    requires Reachable(Init, Next, s)
    ensures s.confirmed <= 1 + s.failedEdits
    ensures |s.used| <= 1 + s.failedEdits + s.failedSends
  {
    Invariant(s);
    if c :| c in s.calls && MidSend(s.calls[c]) {
      assert Holds(s.calls[c]);
    }
  }

  // An edit that takes effect although it is answered with an error leaves the cache behind the chat

  function Begun(throttle: int, clock: int): State
  {
    State(throttle, clock, 1, map[], 0, 0, "", map[], {}, {}, multiset{}, multiset{}, 0, 0, 0, [])
  }

  function FirstMessage(throttle: int, clock: int, a: string): State
  {
    State(throttle, clock, 1, map[0 := Over], 1, clock, a, map[1 := a], {1}, {}, multiset{}, multiset{}, 0, 0, 1, [])
  }

  lemma SendsFirst(throttle: int, clock: nat, a: string)
    ensures Reachable(Init, Next, FirstMessage(throttle, clock, a))
  {
    var s0 := Begun(throttle, clock);
    var s1 := Apply(s0, Render(0, a));
    var s2 := Apply(s1, SendLands(0, 1));
    var s3 := Apply(s2, SendAnswers(0, Confirmed));
    assert s3 == FirstMessage(throttle, clock, a);
    Start(Init, Next, s0);
    Extend(Init, Next, s0, s1);
    Extend(Init, Next, s1, s2);
    Extend(Init, Next, s2, s3);
  }

  /** A refresh to `b` has taken effect and is not answered yet. */
  function Refreshing(throttle: int, clock: int, a: string, b: string): State
  {
    FirstMessage(throttle, clock, a).(tokens := 0, shown := map[1 := b], calls := map[0 := Over, 1 := Editing(Forced, clock, b, 1, true)])
  }

  lemma Refreshes(throttle: int, clock: nat, a: string, b: string)
    requires a != b
    ensures Reachable(Init, Next, Refreshing(throttle, clock, a, b))
  {
    var s3 := FirstMessage(throttle, clock, a);
    SendsFirst(throttle, clock, a);
    var s4 := Apply(s3, Refresh(1));
    var s5 := Apply(s4, Acquire(1, b));
    var s6 := Apply(s5, EditLands(1));
    assert s6 == Refreshing(throttle, clock, a, b);
    Extend(Init, Next, s3, s4);
    Extend(Init, Next, s4, s5);
    Extend(Init, Next, s5, s6);
  }

  /** Such a run, for any two different texts: the refresh edit to `b` takes effect but fails, and so does the send after it. The cache still says `a`, and a forced refresh to `a` then changes nothing. */
  lemma UnconfirmedEditIsForgotten(throttle: int, clock: nat, a: string, b: string) returns (s: State)
    requires a != b
    ensures Reachable(Init, Next, s)
    ensures s.tokens == 1 && Holders(s) == {} && (s.message, b) in s.unsure
    ensures s.message != 0 && s.message in s.shown && s.shown[s.message] == b && s.cached == a
    ensures forall c :: c !in s.calls ==> Apply(Apply(s, Refresh(c)), Acquire(c, a)).shown == s.shown
  {
    var s6 := Refreshing(throttle, clock, a, b);
    Refreshes(throttle, clock, a, b);
    var s7 := Apply(s6, EditAnswers(1, Failed));
    s := Apply(s7, SendAnswers(1, Failed));
    Extend(Init, Next, s6, s7);
    Extend(Init, Next, s7, s);
  }
}
