/** Membership, revocation and the gateway for one member of one conversation, in every interleaving:
    generations drawn from a sequence under the conversation lock, durable intents, a marker that is
    only ever raised and lapses, tokens minted in two steps and looked up in two steps. */
module Revocation {
  import opened Text
  import opened RoomAuth

  /** Milliseconds on the gateway's clock, at which Redis' markers age too. */
  type Time = nat

  const SECOND := 1000
  const MARKER_LIFE := DENY_TTL * SECOND

  /** A generation: a value of the membership sequence. */
  type Gen = g: int64 | 0 <= g

  /** `Active(None)` is a row written before generations existed. */
  datatype Row = Absent | Active(gen: Option<Gen>) | Left

  datatype Marker = Marker(value: Gen, until: Time)

  /** A token and, for the record, when its generation was read and when it was issued. */
  datatype Token = Token(gen: Gen, exp: nat, read: Time, issued: Time)

  /** A lookup that let a token through, with the markers acknowledged by then. */
  datatype Admission = Admission(token: Token, at: Time, armed: set<Gen>)

  datatype Reading = Reading(gen: Gen, at: Time)

  /** `severed` says when each sever committed; `retries` are the generations drawn for a member found
      gone; `intended` have been durable intents; `armed` are acknowledged marker writes. */
  datatype State = State(
    now: Time, last: Gen, row: Row,
    severed: map<Gen, Time>, seenGone: bool, retries: set<Gen>, intended: set<Gen>, intent: Option<Gen>,
    armed: set<Gen>, marker: Option<Marker>,
    readings: set<Reading>, tokens: set<Token>, checked: set<Token>, admissions: set<Admission>)

  /** How long issuing may lag behind reading the generation, how far the issuer's clock may be ahead of the
      gateway's, and whether the already-gone lane runs. */
  datatype Config = Config(stall: nat, skew: nat, retryLane: bool)

  datatype Action =
    | Tick(d: nat) | DrawElsewhere
    | Join | Sever | SeeGone | Draw | Intend(g: Gen) | Arm(g: Gen, acknowledged: bool) | Delete(g: Gen)
    | ReadGen | Issue(r: Reading, clock: Time) | Check(t: Token) | Lookup(t: Token)

  predicate CanDraw(s: State) {
    s.last < INT64_MAX
  }

  predicate Enabled(c: Config, s: State, a: Action) {
    match a
    case Tick(_) => true
    case DrawElsewhere => CanDraw(s)
    case Join => CanDraw(s)
    case Sever => s.row.Active? && CanDraw(s)
    case SeeGone => !s.row.Active?
    case Draw => c.retryLane && s.seenGone && CanDraw(s)
    case Intend(g) => g in s.retries
    case Arm(g, _) => g in s.intended
    case Delete(g) => g in s.armed
    case ReadGen => s.row.Active? && (s.row.gen.None? ==> CanDraw(s))
    case Issue(r, clock) => r in s.readings && s.now <= r.at + c.stall && clock <= s.now + c.skew
    case Check(t) => t in s.tokens && s.now / SECOND < t.exp
    case Lookup(t) => t in s.checked
  }

  function Next(s: State): Gen
    requires CanDraw(s)
  {
    s.last + 1
  }

  /** `GREATEST`: the intent only ever grows until it is deleted. */
  function Raised(intent: Option<Gen>, g: Gen): Gen {
    if intent.Some? && intent.value > g then intent.value else g
  }

  /** What a GET returns. */
  function Live(s: State): Option<Marker> {
    if s.marker.Some? && s.now < s.marker.value.until then s.marker else None
  }

  /** The ratchet script: set unless the stored value is greater. */
  function Ratcheted(s: State, g: Gen): Option<Marker> {
    var cur := Live(s);
    if cur.None? || g >= cur.value.value then Some(Marker(g, s.now + MARKER_LIFE)) else cur
  }

  predicate Denied(s: State, gen: Gen) {
    Live(s).Some? && DeniedByMarker(FormatInt(Live(s).value.value), gen)
  }

  function SeverRow(s: State): State
    requires CanDraw(s)
  {
    var g := Next(s);
    s.(last := g, row := Left, severed := s.severed[g := s.now], intended := s.intended + {g},
      intent := Some(Raised(s.intent, g)))
  }

  /** `GetMemberGen`: an old row is given its generation on first use. */
  function ReadRow(s: State): State
    requires s.row.Active? && (s.row.gen.None? ==> CanDraw(s))
  {
    var g := if s.row.gen.Some? then s.row.gen.value else Next(s);
    s.(last := if s.row.gen.Some? then s.last else g,
       row := Active(Some(g)), readings := s.readings + {Reading(g, s.now)})
  }

  /** The expiry is by the issuer's clock. */
  function Minted(s: State, r: Reading, clock: Time): Token {
    Token(r.gen, clock / SECOND + TTL, r.at, s.now)
  }

  function Apply(c: Config, s: State, a: Action): State
    requires Enabled(c, s, a)
  {
    match a
    case Tick(d) => s.(now := s.now + d)
    case DrawElsewhere => s.(last := Next(s))
    case Join => s.(last := Next(s), row := if s.row.Active? then s.row else Active(Some(Next(s))))
    case Sever => SeverRow(s)
    case SeeGone => s.(seenGone := true)
    case Draw => s.(last := Next(s), retries := s.retries + {Next(s)})
    case Intend(g) => s.(intended := s.intended + {g}, intent := Some(Raised(s.intent, g)))
    case Arm(g, acknowledged) => s.(marker := Ratcheted(s, g), armed := if acknowledged then s.armed + {g} else s.armed)
    case Delete(g) => s.(intent := if s.intent.Some? && s.intent.value <= g then None else s.intent)
    case ReadGen => ReadRow(s)
    case Issue(r, clock) => s.(tokens := s.tokens + {Minted(s, r, clock)})
    case Check(t) => s.(checked := s.checked + {t})
    case Lookup(t) => if Denied(s, t.gen) then s else s.(admissions := s.admissions + {Admission(t, s.now, s.armed)})
  }

  ghost predicate Init(s: State) {
    && s.severed == map[] && !s.seenGone && s.retries == {} && s.intended == {} && s.intent.None? && s.armed == {}
    && s.marker.None? && s.readings == {} && s.tokens == {} && s.checked == {} && s.admissions == {}
    && (s.row.Active? && s.row.gen.Some? ==> s.row.gen.value <= s.last)
  }

  ghost predicate IsRun(c: Config, s: State, run: seq<Action>, t: State)
    decreases |run|
  {
    if run == [] then s == t else Enabled(c, s, run[0]) && IsRun(c, Apply(c, s, run[0]), run[1..], t)
  }

  ghost predicate Reachable(c: Config, t: State) {
    exists s: State, run: seq<Action> :: Init(s) && IsRun(c, s, run, t)
  }

  // ----- What every step keeps -----

  /** Somebody acknowledged a marker at least as new as `g`. */
  ghost predicate Settled(armed: set<Gen>, g: Gen) {
    exists h :: h in armed && g <= h
  }

  ghost predicate NumbersInv(s: State) {
    && (forall g :: g in s.severed ==> g <= s.last && s.severed[g] <= s.now && g in s.intended)
    && (forall g :: g in s.retries ==> g <= s.last && g !in s.severed)
    && (forall g :: g in s.intended ==> g in s.severed || g in s.retries)
    && s.armed <= s.intended
    && (s.intent.Some? ==> s.intent.value in s.intended)
    && (s.marker.Some? ==> s.marker.value.value in s.intended)
    && (s.row.Active? && s.row.gen.Some? ==> s.row.gen.value <= s.last && s.row.gen.value !in s.retries)
    && (s.row.Active? && s.row.gen.Some? ==> forall g :: g in s.severed ==> g < s.row.gen.value)
  }

  /** A marker as new as a sever lives at least until that sever's own marker would have lapsed. */
  ghost predicate MarkerInv(s: State) {
    && (forall g :: g in s.severed && s.marker.Some? && g <= s.marker.value.value ==>
          s.severed[g] + MARKER_LIFE <= s.marker.value.until)
    && (forall g :: g in s.severed && Settled(s.armed, g) ==>
          (s.marker.Some? && g <= s.marker.value.value) || s.severed[g] + MARKER_LIFE <= s.now)
  }

  ghost predicate CoverInv(s: State) {
    forall g :: g in s.severed ==> (s.intent.Some? && g <= s.intent.value) || Settled(s.armed, g)
  }

  ghost predicate ReadBefore(s: State, gen: Gen, at: Time) {
    && at <= s.now && gen <= s.last
    && forall g :: g in s.severed && gen <= g ==> at <= s.severed[g]
  }

  ghost predicate TokenInv(c: Config, s: State) {
    && (forall r :: r in s.readings ==> ReadBefore(s, r.gen, r.at))
    && (forall t :: t in s.tokens ==>
          ReadBefore(s, t.gen, t.read) && t.issued <= t.read + c.stall && t.exp <= (t.issued + c.skew) / SECOND + TTL)
    && s.checked <= s.tokens
  }

  ghost predicate AdmissionInv(s: State) {
    forall a :: a in s.admissions ==>
      && a.token in s.tokens && a.at <= s.now && (forall h :: h in a.armed ==> h <= s.last)
      && forall g :: g in s.severed && Settled(a.armed, g) && a.token.gen <= g ==> s.severed[g] + MARKER_LIFE <= a.at
  }

  ghost predicate Inv(c: Config, s: State) {
    NumbersInv(s) && MarkerInv(s) && CoverInv(s) && TokenInv(c, s) && AdmissionInv(s)
  }

  lemma InitInv(c: Config, s: State)
    requires Init(s)
    ensures Inv(c, s)
  {
  }

  lemma StepKeepsNumbers(c: Config, s: State, a: Action)
    requires NumbersInv(s) && Enabled(c, s, a)
    ensures NumbersInv(Apply(c, s, a))
  {
    hide DeniedByMarker, FormatInt;
  }

  lemma StepKeepsMarker(c: Config, s: State, a: Action)
    requires NumbersInv(s) && MarkerInv(s) && Enabled(c, s, a)
    ensures MarkerInv(Apply(c, s, a))
  {
    hide DeniedByMarker, FormatInt;
  }

  lemma StepKeepsCover(c: Config, s: State, a: Action)
    requires NumbersInv(s) && CoverInv(s) && Enabled(c, s, a)
    ensures CoverInv(Apply(c, s, a))
  {
    hide DeniedByMarker, FormatInt;
  }

  lemma StepKeepsTokens(c: Config, s: State, a: Action)
    requires NumbersInv(s) && TokenInv(c, s) && Enabled(c, s, a)
    ensures TokenInv(c, Apply(c, s, a))
  {
    hide DeniedByMarker, FormatInt;
  }

  /** Until a sever's marker would have lapsed, every token of its membership or an older one is
      denied, once anyone has acknowledged a marker at least as new. */
  lemma OldGenerationIsDenied(s: State, g: Gen, gen: Gen)
    requires MarkerInv(s) && g in s.severed && Settled(s.armed, g) && gen <= g && s.now < s.severed[g] + 360_000
    ensures Denied(s, gen)
  {
    hide DeniedByMarker, FormatInt;
    MarkerDenies(s.marker.value.value, gen);
  }

  lemma StepKeepsAdmissions(c: Config, s: State, a: Action)
    requires NumbersInv(s) && MarkerInv(s) && TokenInv(c, s) && AdmissionInv(s) && Enabled(c, s, a)
    ensures AdmissionInv(Apply(c, s, a))
  {
    hide DeniedByMarker, FormatInt, Denied;
    if a.Lookup? {
      forall g | g in s.severed && Settled(s.armed, g) && a.t.gen <= g && !Denied(s, a.t.gen)
        ensures s.severed[g] + MARKER_LIFE <= s.now
      {
        if s.now < s.severed[g] + MARKER_LIFE {
          OldGenerationIsDenied(s, g, a.t.gen);
        }
      }
    }
  }

  lemma StepKeepsInv(c: Config, s: State, a: Action)
    requires Inv(c, s) && Enabled(c, s, a)
    ensures Inv(c, Apply(c, s, a))
  {
    hide Apply, NumbersInv, MarkerInv, CoverInv, TokenInv, AdmissionInv;
    StepKeepsNumbers(c, s, a);
    StepKeepsMarker(c, s, a);
    StepKeepsCover(c, s, a);
    StepKeepsTokens(c, s, a);
    StepKeepsAdmissions(c, s, a);
  }

  lemma {:induction false} RunKeepsInv(c: Config, s: State, run: seq<Action>, t: State)
    requires Inv(c, s) && IsRun(c, s, run, t)
    ensures Inv(c, t)
    decreases |run|
  {
    hide Inv, Apply, Enabled;
    if run != [] {
      StepKeepsInv(c, s, run[0]);
      RunKeepsInv(c, Apply(c, s, run[0]), run[1..], t);
    }
  }

  lemma ReachableInv(c: Config, t: State)
    requires Reachable(c, t)
    ensures Inv(c, t)
  {
    hide Inv, Init, IsRun;
    var s: State, run: seq<Action> :| Init(s) && IsRun(c, s, run, t);
    InitInv(c, s);
    RunKeepsInv(c, s, run, t);
  }

  lemma {:induction false} RunSnoc(c: Config, s: State, run: seq<Action>, t: State, a: Action)
    requires IsRun(c, s, run, t) && Enabled(c, t, a)
    ensures IsRun(c, s, run + [a], Apply(c, t, a))
    decreases |run|
  {
    hide Apply, Enabled;
    if run == [] {
      assert [a][1..] == [];
      assert IsRun(c, Apply(c, t, a), [], Apply(c, t, a));
    } else {
      RunSnoc(c, Apply(c, s, run[0]), run[1..], t, a);
      assert (run + [a])[1..] == run[1..] + [a];
    }
  }

  lemma ReachInit(c: Config, s: State)
    requires Init(s)
    ensures Reachable(c, s)
  {
    hide Init;
    assert IsRun(c, s, [], s);
  }

  lemma ReachStep(c: Config, t: State, a: Action)
    requires Reachable(c, t) && Enabled(c, t, a)
    ensures Reachable(c, Apply(c, t, a))
  {
    hide Init, IsRun, Apply, Enabled;
    var s: State, run: seq<Action> :| Init(s) && IsRun(c, s, run, t);
    RunSnoc(c, s, run, t, a);
  }

  // ----- Durability -----

  /** Every committed sever is owed by a durable intent at least as new, or its marker, or a newer one,
      was acknowledged: whatever order markers, deletions and further severs come in. */
  lemma EverySeverIsCovered(c: Config, s: State, g: Gen)
    requires Reachable(c, s) && g in s.severed
    ensures (s.intent.Some? && g <= s.intent.value) || Settled(s.armed, g)
  {
    ReachableInv(c, s);
  }

  /** One repair of the pending intent, the marker write acknowledged, settles every sever there is:
      the intent is gone and each membership severed less than the marker life ago is denied. */
  lemma RepairSettles(c: Config, s: State, gen: Gen)
    requires Reachable(c, s) && s.intent.Some?
    ensures var i := s.intent.value;
            && Enabled(c, s, Arm(i, true)) && Enabled(c, Apply(c, s, Arm(i, true)), Delete(i))
            && var t := Apply(c, Apply(c, s, Arm(i, true)), Delete(i));
            && t.intent.None?
            && forall g :: g in s.severed && gen <= g && s.now < s.severed[g] + 360_000 ==> Denied(t, gen)
  {
    hide Denied, IsRun;
    ReachableInv(c, s);
    var i := s.intent.value;
    var m := Apply(c, s, Arm(i, true));
    ReachStep(c, s, Arm(i, true));
    ReachStep(c, m, Delete(i));
    var t := Apply(c, m, Delete(i));
    ReachableInv(c, t);
    forall g | g in s.severed && gen <= g && s.now < s.severed[g] + MARKER_LIFE
      ensures Denied(t, gen)
    {
      assert g in t.severed;
      OldGenerationIsDenied(t, g, gen);
    }
  }

  // ----- Safety -----

  /** A marker at least as new as the sever was acknowledged, and a lookup still let through a token
      of the severed membership, or an older one, before that token's expiry. */
  ghost predicate Breach(s: State) {
    exists a, g :: a in s.admissions && g in s.severed && Settled(a.armed, g) && a.token.gen <= g
      && a.at / SECOND < a.token.exp
  }

  lemma PromptTokensNeverBreach(c: Config, s: State)
    requires Reachable(c, s) && c.stall + c.skew <= (DENY_TTL - TTL) * SECOND
    ensures !Breach(s)
  {
    ReachableInv(c, s);
    forall a, g | a in s.admissions && g in s.severed && Settled(a.armed, g) && a.token.gen <= g
      ensures a.at / SECOND >= a.token.exp
    {
      var t := a.token;
      assert t.read <= s.severed[g] && t.exp <= (t.issued + c.skew) / SECOND + TTL;
    }
  }

  /** With issuing allowed to lag behind the generation read, and the issuer's clock to be ahead, by more than
      a minute together, a run breaks in. */
  lemma StalledTokenBreaches(c: Config) returns (s: State)
    requires c.stall + c.skew > (DENY_TTL - TTL) * SECOND
    ensures Reachable(c, s) && Breach(s)
  {
    hide IsRun, Reachable, Breach, DeniedByMarker, FormatInt;
    var r, token;
    s, r, token := StalledIssue(c);
    s := Do(c, s, Tick(if c.stall < MARKER_LIFE then MARKER_LIFE - c.stall else 0));
    s := Do(c, s, Check(token));
    s := Do(c, s, Lookup(token));
    BreachIs(s, Admission(token, s.now, {2}), 2);
  }

  /** Severed and armed at `r`, issued all the same, as late as may be. */
  lemma StalledIssue(c: Config) returns (s: State, r: nat, token: Token)
    ensures (r + c.stall + c.skew) % SECOND == 0
    ensures Reachable(c, s) && s.severed == map[2 := r]
    ensures s.marker == Some(Marker(2, r + MARKER_LIFE)) && s.armed == {2}
    ensures token == Token(1, (r + c.stall + c.skew) / SECOND + TTL, r, r + c.stall)
    ensures s.tokens == {token} && s.now == r + c.stall
  {
    hide IsRun, Reachable, DeniedByMarker, FormatInt;
    r := (SECOND - (c.stall + c.skew) % SECOND) % SECOND;
    s := State(r, 1, Active(Some(1)), map[], false, {}, {}, None, {}, None, {}, {}, {}, {});
    ReachInit(c, s);
    var reading := Reading(1, r);
    s := Do(c, s, ReadGen);
    s := Do(c, s, Sever);
    assert s.severed == map[2 := r] && s.readings == {reading} && s.tokens == {};
    s := Do(c, s, Arm(2, true));
    assert s.marker == Some(Marker(2, r + MARKER_LIFE)) && s.armed == {2};
    s := Do(c, s, Tick(c.stall));
    token := Token(1, (r + c.stall + c.skew) / SECOND + TTL, r, r + c.stall);
    s := Do(c, s, Issue(reading, r + c.stall + c.skew));
    assert s.tokens == {token};
  }

  lemma BreachIs(s: State, a: Admission, g: Gen)
    requires a in s.admissions && g in s.severed && g in a.armed && a.token.gen <= g && a.at / SECOND < a.token.exp
    ensures Breach(s)
  {
    assert Settled(a.armed, g);
  }

  lemma Do(c: Config, s: State, a: Action) returns (t: State)
    requires Reachable(c, s) && Enabled(c, s, a)
    ensures Reachable(c, t) && t == Apply(c, s, a)
  {
    ReachStep(c, s, a);
    t := Apply(c, s, a);
  }

  /** The protocol never lets a revoked, unexpired token through, exactly when the lag of issuing and
      the issuer's clock being ahead together stay within the minute by which the marker outlives a token. */
  lemma SafeExactly(c: Config)
    ensures (forall s: State :: Reachable(c, s) ==> !Breach(s)) <==> c.stall + c.skew <= 60_000
  {
    hide Reachable, Breach;
    if c.stall + c.skew <= (DENY_TTL - TTL) * SECOND {
      forall s: State | Reachable(c, s)
        ensures !Breach(s)
      {
        PromptTokensNeverBreach(c, s);
      }
    } else {
      var s := StalledTokenBreaches(c);
    }
  }

  // ----- Liveness -----

  lemma {:induction false} RunDrawsNoRetry(c: Config, s: State, run: seq<Action>, t: State)
    requires IsRun(c, s, run, t) && !c.retryLane && s.retries == {}
    ensures t.retries == {}
    decreases |run|
  {
    hide Ratcheted, Denied;
    if run != [] {
      RunDrawsNoRetry(c, Apply(c, s, run[0]), run[1..], t);
    }
  }

  /** A denied generation of an active membership is denied by a generation drawn in the already-gone
      lane after that membership began. */
  lemma OnlyARetryDenies(c: Config, s: State)
    requires Reachable(c, s) && s.row.Active? && s.row.gen.Some? && Denied(s, s.row.gen.value)
    ensures exists h :: h in s.retries && s.row.gen.value < h
  {
    hide DeniedByMarker, FormatInt;
    ReachableInv(c, s);
    var v := s.marker.value.value;
    MarkerDenies(v, s.row.gen.value);
    assert v in s.intended && v !in s.severed;
  }

  /** A rejoin while a repeated removal is under way: the member is back, and yet denied. */
  lemma RetryDeniesRejoined(c: Config) returns (s: State)
    requires c.retryLane
    ensures Reachable(c, s) && s.row.Active? && s.row.gen.Some? && Denied(s, s.row.gen.value)
  {
    hide IsRun, Reachable, DeniedByMarker, FormatInt;
    s := State(0, 1, Active(Some(1)), map[], false, {}, {}, None, {}, None, {}, {}, {}, {});
    ReachInit(c, s);
    s := Do(c, s, Sever);
    s := Do(c, s, SeeGone);
    s := Do(c, s, Join);
    s := Do(c, s, Draw);
    assert s.retries == {4} && s.row == Active(Some(3));
    s := Do(c, s, Intend(4));
    s := Do(c, s, Arm(4, true));
    assert s.marker == Some(Marker(4, MARKER_LIFE)) && s.now == 0;
    MarkerDenies(4, 3);
  }

  /** The generation of an active membership is never denied, exactly when the already-gone lane draws
      no generations. */
  lemma LiveExactly(c: Config)
    ensures (forall s: State :: Reachable(c, s) && s.row.Active? && s.row.gen.Some? ==> !Denied(s, s.row.gen.value))
       <==> !c.retryLane
  {
    hide IsRun, Denied, Apply;
    if c.retryLane {
      var s := RetryDeniesRejoined(c);
    } else {
      forall t: State | Reachable(c, t) && t.row.Active? && t.row.gen.Some?
        ensures !Denied(t, t.row.gen.value)
      {
        var s: State, run: seq<Action> :| Init(s) && IsRun(c, s, run, t);
        RunDrawsNoRetry(c, s, run, t);
        if Denied(t, t.row.gen.value) {
          OnlyARetryDenies(c, t);
        }
      }
    }
  }
}
