/** Time-based one-time codes: how a digest becomes six digits, and the life of a user's
    factor through setup, confirmation, challenges, recovery and reset. */
module Mfa {
  import opened Basics

  // ---------------------------------------------------------------------------
  // Truncation (section 5.3 of RFC 4226, which RFC 6238 builds on)
  // ---------------------------------------------------------------------------

  type Byte = n: nat | n < 256

  /** Four bytes as one word, most significant first. */
  function Word(a: nat, b: nat, c: nat, d: nat): nat {
    ((a * 256 + b) * 256 + c) * 256 + d
  }

  function ReadUInt32(digest: seq<Byte>, offset: nat): nat
    requires offset + 4 <= |digest|
  {
    Word(digest[offset], digest[offset + 1], digest[offset + 2], digest[offset + 3])
  }

  function Offset(digest: seq<Byte>): (offset: nat)
    requires |digest| == 20
    ensures offset + 4 <= |digest|
  {
    digest[19] % 16
  }

  function Digit(n: nat): char
    requires n < 10
  {
    '0' + n as char
  }

  /** Decimal text of n, padded with zeros to w digits. */
  function Padded(n: nat, w: nat): (text: string)
    ensures |text| == w
  {
    if w == 0 then "" else Padded(n / 10, w - 1) + [Digit(n % 10)]
  }

  /** The low 31 bits of the selected word, and of those the last six decimal digits. */
  function Totp(digest: seq<Byte>): (code: string)
    requires |digest| == 20
    ensures |code| == 6
  {
    Padded(ReadUInt32(digest, Offset(digest)) % 0x8000_0000 % 1_000_000, 6)
  }

  function Decimal(text: string): nat {
    if text == "" then 0
    else
      var c := text[|text| - 1];
      10 * Decimal(text[..|text| - 1]) + if '0' <= c <= '9' then c as int - '0' as int else 0
  }

  function Power10(w: nat): (p: nat)
    ensures p > 0
  {
    if w == 0 then 1 else 10 * Power10(w - 1)
  }

  lemma {:induction false} PaddedReads(n: nat, w: nat)
    requires n < Power10(w)
    ensures Decimal(Padded(n, w)) == n
    ensures forall c <- Padded(n, w) :: '0' <= c <= '9'
  {
    if w > 0 {
      PaddedReads(n / 10, w - 1);
      assert Padded(n, w)[..w - 1] == Padded(n / 10, w - 1);
    }
  }

  /** The word with its sign bit masked off. */
  function Masked(a: nat, b: nat, c: nat, d: nat): nat {
    a % 128 * 0x100_0000 + b * 0x1_0000 + c * 0x100 + d
  }

  lemma MaskingIsModulo(a: nat, b: nat, c: nat, d: nat)
    requires a < 256 && b < 256 && c < 256 && d < 256
    ensures Word(a, b, c, d) % 0x8000_0000 == Masked(a, b, c, d)
  {
    assert Word(a, b, c, d) == a * 0x100_0000 + b * 0x1_0000 + c * 0x100 + d;
    assert a == a / 128 * 128 + a % 128;
    RemainderIs(Word(a, b, c, d), a / 128, Masked(a, b, c, d));
  }

  lemma RemainderIs(n: nat, high: nat, low: nat)
    requires n == high * 0x8000_0000 + low && low < 0x8000_0000 && high < 2
    ensures n % 0x8000_0000 == low
  {
  }

  /** Six digits spelling the truncated value: the sign bit masked off the four bytes that
      the low half of the last byte points at, modulo a million. */
  lemma TotpIsTruncation(digest: seq<Byte>)
    requires |digest| == 20
    ensures var o := Offset(digest);
            Decimal(Totp(digest)) == Masked(digest[o], digest[o + 1], digest[o + 2], digest[o + 3]) % 1_000_000
    ensures forall c <- Totp(digest) :: '0' <= c <= '9'
  {
    hide Word, Masked;
    var o := Offset(digest);
    MaskingIsModulo(digest[o], digest[o + 1], digest[o + 2], digest[o + 3]);
    PowersOfTen();
    PaddedReads(ReadUInt32(digest, o) % 0x8000_0000 % 1_000_000, 6);
  }

  lemma PowersOfTen()
    ensures Power10(6) == 1_000_000
  {
  }

  // ---------------------------------------------------------------------------
  // Factors
  // ---------------------------------------------------------------------------

  datatype Code = Code(text: string, used: bool)

  datatype Factor = Factor(user: Id, secret: Id, setup: int, last: Option<int>, verified: bool, disabled: bool,
                           acknowledged: bool, codes: seq<Code>)

  /** An accepted timestep, the clock's timestep then, and whether it confirmed the factor. */
  datatype Accepted = Accepted(factor: Id, step: int, clock: int, confirms: bool)

  datatype Spending = Spending(factor: Id, index: nat)

  /** The factors, and what has been accepted and spent; no code reads the two histories. */
  datatype World = World(factors: map<Id, Factor>, accepted: seq<Accepted>, spent: seq<Spending>)

  /** The code of a secret at a timestep; the keyed digest stays uninterpreted. */
  type Codes = (Id, int) -> string

  function Last(f: Factor): int {
    if f.last.Some? then f.last.value else -1
  }

  function DisabledAll(factors: map<Id, Factor>, user: Id): map<Id, Factor> {
    map f | f in factors ::
      if factors[f].user == user && !factors[f].disabled then factors[f].(disabled := true) else factors[f]
  }

  predicate IsEnrolled(w: World, user: Id) {
    exists f <- w.factors :: w.factors[f].user == user && !w.factors[f].disabled && w.factors[f].verified
  }

  /** The first of the three timesteps around the clock whose code was given. */
  function MatchedStep(secret: Id, clock: int, code: string, totp: Codes): Option<int> {
    if totp(secret, clock - 1) == code then Some(clock - 1)
    else if totp(secret, clock) == code then Some(clock)
    else if totp(secret, clock + 1) == code then Some(clock + 1)
    else None
  }

  /** The first unused recovery code that matches. */
  function FirstUnused(codes: seq<Code>, text: string, from: nat): (k: Option<nat>)
    requires from <= |codes|
    ensures k.Some? ==> k.value < |codes| && !codes[k.value].used && codes[k.value].text == text
    decreases |codes| - from
  {
    if from == |codes| then None
    else if !codes[from].used && codes[from].text == text then Some(from)
    else FirstUnused(codes, text, from + 1)
  }

  function Fresh(texts: seq<string>): seq<Code> {
    seq(|texts|, i requires 0 <= i < |texts| => Code(texts[i], false))
  }

  // ---------------------------------------------------------------------------
  // Transactions
  // ---------------------------------------------------------------------------

  datatype Step =
    | Setup(user: Id, factor: Id, secret: Id, clock: int)
    | Confirm(user: Id, factor: Id, first: string, second: string, clock: int, texts: seq<string>)
    | Acknowledge(user: Id, factor: Id)
    | Challenge(user: Id, factor: Id, code: string, clock: int)
    | Recover(user: Id, factor: Id, code: string)
    | Reset(user: Id)

  predicate Confirms(f: Factor, user: Id, first: string, second: string, clock: int, totp: Codes) {
    && f.user == user && !f.disabled
    && -4 <= clock - f.setup <= 4
    && first == totp(f.secret, f.setup) && second == totp(f.secret, f.setup + 1)
    && !(f.last.Some? && f.last.value >= f.setup + 1)
  }

  predicate Usable(f: Factor, user: Id) {
    f.user == user && f.verified && !f.disabled
  }

  function Put(w: World, factor: Id, f: Factor): World {
    w.(factors := w.factors[factor := f])
  }

  function Apply(w: World, step: Step, totp: Codes): World {
    match step
    case Setup(user, factor, secret, clock) =>
      if IsEnrolled(w, user) || factor in w.factors then w
      else
        Put(w.(factors := DisabledAll(w.factors, user)), factor, Factor(user, secret, clock, None, false, false, false, []))
    case Confirm(user, factor, first, second, clock, texts) =>
      if factor !in w.factors || |texts| != 10 || !Confirms(w.factors[factor], user, first, second, clock, totp) then w
      else
        var f := w.factors[factor];
        Put(w, factor, f.(verified := true, last := Some(f.setup + 1), codes := f.codes + Fresh(texts))).(
          accepted := w.accepted + [Accepted(factor, f.setup + 1, clock, true)])
    case Acknowledge(user, factor) =>
      if factor !in w.factors || !Usable(w.factors[factor], user) || w.factors[factor].acknowledged then w
      else Put(w, factor, w.factors[factor].(acknowledged := true))
    case Challenge(user, factor, code, clock) =>
      if factor !in w.factors || !Usable(w.factors[factor], user) then w
      else
        var f := w.factors[factor];
        var step := MatchedStep(f.secret, clock, code, totp);
        if step.None? || step.value <= Last(f) then w
        else
          Put(w, factor, f.(last := step)).(accepted := w.accepted + [Accepted(factor, step.value, clock, false)])
    case Recover(user, factor, code) =>
      if factor !in w.factors || !Usable(w.factors[factor], user) then w
      else
        var f := w.factors[factor];
        var k := FirstUnused(f.codes, code, 0);
        if k.None? then w
        else
          Put(w, factor, f.(codes := f.codes[k.value := f.codes[k.value].(used := true)])).(
            spent := w.spent + [Spending(factor, k.value)])
    case Reset(user) => w.(factors := DisabledAll(w.factors, user))
  }

  function Run(w: World, steps: seq<Step>, totp: Codes): World
    decreases |steps|
  {
    if steps == [] then w else Run(Apply(w, steps[0], totp), steps[1..], totp)
  }

  // ---------------------------------------------------------------------------
  // The invariant
  // ---------------------------------------------------------------------------

  predicate BothEnabled(f: Factor, g: Factor) {
    f.user == g.user && !f.disabled && !g.disabled
  }

  ghost predicate OneEnabled(w: World) {
    forall f, g :: f in w.factors && g in w.factors && BothEnabled(w.factors[f], w.factors[g]) ==> f == g
  }

  /** A factor is verified exactly when its ten codes exist, and has a last step then. */
  ghost predicate FactorOk(f: Factor) {
    && (f.verified ==> |f.codes| == 10 && f.last.Some? && f.last.value >= f.setup + 1)
    && (!f.verified ==> f.codes == [] && f.last.None?)
  }

  ghost predicate AcceptedOk(w: World, a: Accepted) {
    && a.factor in w.factors && w.factors[a.factor].last.Some? && a.step <= w.factors[a.factor].last.value
    && (if a.confirms then a.step == w.factors[a.factor].setup + 1 && -4 <= a.clock - w.factors[a.factor].setup <= 4
        else -1 <= a.step - a.clock <= 1)
  }

  /** Later acceptances of a factor have later timesteps, and only the first confirms. */
  ghost predicate Increasing(accepted: seq<Accepted>) {
    forall i, j :: 0 <= i < j < |accepted| && accepted[i].factor == accepted[j].factor ==>
      accepted[i].step < accepted[j].step && !accepted[j].confirms
  }

  ghost predicate SpentOk(w: World, s: Spending) {
    && s.factor in w.factors && s.index < |w.factors[s.factor].codes| && w.factors[s.factor].codes[s.index].used
  }

  ghost predicate SpentOnce(spent: seq<Spending>) {
    forall i, j :: 0 <= i < j < |spent| ==> spent[i] != spent[j]
  }

  ghost predicate Inv(w: World) {
    && OneEnabled(w)
    && (forall f <- w.factors :: FactorOk(w.factors[f]))
    && (forall i :: 0 <= i < |w.accepted| ==> AcceptedOk(w, w.accepted[i]))
    && Increasing(w.accepted)
    && (forall i :: 0 <= i < |w.spent| ==> SpentOk(w, w.spent[i]))
    && SpentOnce(w.spent)
  }

  /** How one factor may change. */
  ghost predicate Evolves(f: Factor, g: Factor) {
    && g.user == f.user && g.setup == f.setup && g.secret == f.secret
    && (f.disabled ==> g.disabled)
    && (f.last.Some? ==> g.last.Some? && f.last.value <= g.last.value)
    && |f.codes| <= |g.codes|
    && forall k :: 0 <= k < |f.codes| && f.codes[k].used ==> g.codes[k].used
  }

  ghost predicate AllEvolve(w: World, w': World) {
    forall f <- w.factors :: f in w'.factors && Evolves(w.factors[f], w'.factors[f])
  }

  lemma HistoriesStayOk(w: World, w': World)
    requires AllEvolve(w, w')
    ensures forall a :: AcceptedOk(w, a) ==> AcceptedOk(w', a)
    ensures forall s :: SpentOk(w, s) ==> SpentOk(w', s)
  {
  }

  lemma DisablingEvolves(w: World, user: Id)
    requires Inv(w)
    ensures Inv(w.(factors := DisabledAll(w.factors, user)))
    ensures forall f <- DisabledAll(w.factors, user) :: w.factors[f].user == user ==> DisabledAll(w.factors, user)[f].disabled
  {
    hide Increasing, SpentOnce;
    var w' := w.(factors := DisabledAll(w.factors, user));
    HistoriesStayOk(w, w');
  }

  lemma NewFactorKeepsInv(w: World, factor: Id, f: Factor)
    requires Inv(w) && factor !in w.factors && FactorOk(f)
    requires forall g <- w.factors :: w.factors[g].user == f.user ==> w.factors[g].disabled
    ensures Inv(Put(w, factor, f))
  {
  }

  lemma SetupKeepsInv(w: World, user: Id, factor: Id, secret: Id, clock: int, totp: Codes)
    requires Inv(w)
    ensures Inv(Apply(w, Setup(user, factor, secret, clock), totp))
  {
    hide Inv, OneEnabled;
    var w1 := w.(factors := DisabledAll(w.factors, user));
    DisablingEvolves(w, user);
    if !IsEnrolled(w, user) && factor !in w.factors {
      NewFactorKeepsInv(w1, factor, Factor(user, secret, clock, None, false, false, false, []));
    }
  }

  /** Replacing one factor by what it evolves to keeps everything but the histories' own order. */
  lemma PutKeepsFactors(w: World, factor: Id, g: Factor)
    requires Inv(w) && factor in w.factors && FactorOk(g) && Evolves(w.factors[factor], g)
    requires g.disabled == w.factors[factor].disabled
    ensures OneEnabled(Put(w, factor, g))
    ensures forall f <- Put(w, factor, g).factors :: FactorOk(Put(w, factor, g).factors[f])
    ensures forall i :: 0 <= i < |w.accepted| ==> AcceptedOk(Put(w, factor, g), w.accepted[i])
    ensures forall i :: 0 <= i < |w.spent| ==> SpentOk(Put(w, factor, g), w.spent[i])
  {
  }

  lemma ConfirmKeepsInv(w: World, step: Step, totp: Codes)
    requires Inv(w) && step.Confirm?
    ensures Inv(Apply(w, step, totp))
  {
    hide OneEnabled, SpentOk;
    var w' := Apply(w, step, totp);
    if w' != w {
      var f := w.factors[step.factor];
      assert !f.verified;
      PutKeepsFactors(w, step.factor, w'.factors[step.factor]);
      SameFactorsSameFacts(Put(w, step.factor, w'.factors[step.factor]), w');
    }
  }

  lemma SameFactorsSameFacts(w: World, w': World)
    requires w'.factors == w.factors
    ensures OneEnabled(w) ==> OneEnabled(w')
    ensures forall a :: AcceptedOk(w, a) ==> AcceptedOk(w', a)
    ensures forall s :: SpentOk(w, s) ==> SpentOk(w', s)
  {
  }

  lemma ChallengeKeepsInv(w: World, step: Step, totp: Codes)
    requires Inv(w) && step.Challenge?
    ensures Inv(Apply(w, step, totp))
  {
    hide OneEnabled, SpentOk;
    var w' := Apply(w, step, totp);
    if w' != w {
      PutKeepsFactors(w, step.factor, w'.factors[step.factor]);
      SameFactorsSameFacts(Put(w, step.factor, w'.factors[step.factor]), w');
    }
  }

  lemma RecoverKeepsInv(w: World, step: Step, totp: Codes)
    requires Inv(w) && step.Recover?
    ensures Inv(Apply(w, step, totp))
  {
    hide OneEnabled, AcceptedOk, Increasing;
    var w' := Apply(w, step, totp);
    if w' != w {
      PutKeepsFactors(w, step.factor, w'.factors[step.factor]);
      SameFactorsSameFacts(Put(w, step.factor, w'.factors[step.factor]), w');
    }
  }

  lemma AcknowledgeKeepsInv(w: World, step: Step, totp: Codes)
    requires Inv(w) && step.Acknowledge?
    ensures Inv(Apply(w, step, totp))
  {
    hide OneEnabled, AcceptedOk, SpentOk, Increasing, SpentOnce;
    var w' := Apply(w, step, totp);
    if w' != w {
      PutKeepsFactors(w, step.factor, w'.factors[step.factor]);
    }
  }

  lemma StepKeepsInv(w: World, step: Step, totp: Codes)
    requires Inv(w)
    ensures Inv(Apply(w, step, totp))
  {
    hide Inv, Apply;
    match step
    case Setup(user, factor, secret, clock) => SetupKeepsInv(w, user, factor, secret, clock, totp);
    case Confirm(_, _, _, _, _, _) => ConfirmKeepsInv(w, step, totp);
    case Acknowledge(_, _) => AcknowledgeKeepsInv(w, step, totp);
    case Challenge(_, _, _, _) => ChallengeKeepsInv(w, step, totp);
    case Recover(_, _, _) => RecoverKeepsInv(w, step, totp);
    case Reset(user) => ResetKeepsInv(w, user, totp);
  }

  lemma ResetKeepsInv(w: World, user: Id, totp: Codes)
    requires Inv(w)
    ensures Inv(Apply(w, Reset(user), totp))
  {
  }

  lemma {:induction false} RunKeepsInv(w: World, steps: seq<Step>, totp: Codes)
    requires Inv(w)
    ensures Inv(Run(w, steps, totp))
    decreases |steps|
  {
    hide Inv, Apply;
    if steps != [] {
      StepKeepsInv(w, steps[0], totp);
      RunKeepsInv(Apply(w, steps[0], totp), steps[1..], totp);
    }
  }

  /** In every reachable history the accepted timesteps of a factor strictly increase and
      stay by the clock, and only the first can be its confirmation. */
  lemma StepsNeverRepeat(w: World, steps: seq<Step>, totp: Codes, i: nat, j: nat)
    requires Inv(w) && i < j < |Run(w, steps, totp).accepted|
    requires Run(w, steps, totp).accepted[i].factor == Run(w, steps, totp).accepted[j].factor
    ensures var a := Run(w, steps, totp).accepted;
            && a[i].step < a[j].step && !a[j].confirms && -1 <= a[j].step - a[j].clock <= 1
            && (a[i].confirms ==> -3 <= a[i].step - a[i].clock <= 5)
  {
    hide Run, OneEnabled, FactorOk, SpentOk, SpentOnce;
    RunKeepsInv(w, steps, totp);
    assert AcceptedOk(Run(w, steps, totp), Run(w, steps, totp).accepted[i]);
    assert AcceptedOk(Run(w, steps, totp), Run(w, steps, totp).accepted[j]);
  }

  /** No recovery code is spent twice. */
  lemma CodesAreSpentOnce(w: World, steps: seq<Step>, totp: Codes, i: nat, j: nat)
    requires Inv(w) && i < j < |Run(w, steps, totp).spent|
    ensures Run(w, steps, totp).spent[i] != Run(w, steps, totp).spent[j]
  {
    hide Run, OneEnabled, FactorOk, AcceptedOk, Increasing;
    RunKeepsInv(w, steps, totp);
  }

  /** A verified factor has exactly ten codes, and a user one enabled factor at most. */
  lemma OneFactorWithTenCodes(w: World, steps: seq<Step>, totp: Codes, f: Id, g: Id)
    requires Inv(w) && f in Run(w, steps, totp).factors && g in Run(w, steps, totp).factors
    ensures var factors := Run(w, steps, totp).factors;
            && (factors[f].verified ==> |factors[f].codes| == 10)
            && (BothEnabled(factors[f], factors[g]) ==> f == g)
  {
    hide Run, AcceptedOk, Increasing, SpentOk, SpentOnce;
    RunKeepsInv(w, steps, totp);
  }

  /** A challenge is accepted exactly when the factor is usable and the first of the three
      timesteps that matches is later than the last; that timestep becomes the last. */
  lemma ChallengeAcceptsIff(w: World, user: Id, factor: Id, code: string, clock: int, totp: Codes)
    requires factor in w.factors
    ensures var f, w' := w.factors[factor], Apply(w, Challenge(user, factor, code, clock), totp);
            w' != w <==>
              Usable(f, user) && exists s :: FirstMatch(f.secret, clock, code, totp, s) && s > Last(f)
    ensures var f, w' := w.factors[factor], Apply(w, Challenge(user, factor, code, clock), totp);
            w' != w ==> factor in w'.factors && FirstMatch(f.secret, clock, code, totp, Last(w'.factors[factor]))
  {
    var f := w.factors[factor];
    var found := MatchedStep(f.secret, clock, code, totp);
    if found.Some? {
      assert FirstMatch(f.secret, clock, code, totp, found.value);
    }
  }

  ghost predicate FirstMatch(secret: Id, clock: int, code: string, totp: Codes, s: int) {
    && clock - 1 <= s <= clock + 1 && totp(secret, s) == code
    && forall earlier :: clock - 1 <= earlier < s ==> totp(secret, earlier) != code
  }

  /** A confirmation shows both codes of the setup within four timesteps of it, and stores
      ten unused codes on a factor that had none. */
  lemma ConfirmationNeedsBothCodes(w: World, user: Id, factor: Id, first: string, second: string, clock: int,
                                   texts: seq<string>, totp: Codes)
    requires Inv(w) && Apply(w, Confirm(user, factor, first, second, clock, texts), totp) != w
    ensures factor in w.factors
    ensures var f, g := w.factors[factor], Apply(w, Confirm(user, factor, first, second, clock, texts), totp).factors[factor];
            && !f.verified && f.user == user && !f.disabled && -4 <= clock - f.setup <= 4
            && first == totp(f.secret, f.setup) && second == totp(f.secret, f.setup + 1)
            && g.verified && |g.codes| == 10 && forall k :: 0 <= k < 10 ==> g.codes[k] == Code(texts[k], false)
  {
  }

  /** A code given twice for the same clock is refused the second time. */
  lemma AcceptedCodeIsNotAcceptedAgain(w: World, user: Id, factor: Id, code: string, clock: int, totp: Codes)
    requires Apply(w, Challenge(user, factor, code, clock), totp) != w
    ensures var w' := Apply(w, Challenge(user, factor, code, clock), totp);
            Apply(w', Challenge(user, factor, code, clock), totp) == w'
  {
  }

  // ---------------------------------------------------------------------------
  // The service as it runs
  // ---------------------------------------------------------------------------

  class Store {
    var factors: map<Id, Factor>
    var accepted: seq<Accepted>
    var spent: seq<Spending>

    function View(): World
      reads this
    {
      World(factors, accepted, spent)
    }

    constructor (w: World)
      ensures View() == w
    {
      factors, accepted, spent := w.factors, w.accepted, w.spent;
    }

    method SetupMfa(user: Id, factor: Id, secret: Id, clock: int) returns (ok: bool)
      modifies this`factors
      ensures View() == Apply(old(View()), Setup(user, factor, secret, clock), (_, _) => "")
      ensures ok <==> factor in factors && factor !in old(factors)
    {
      if IsEnrolled(View(), user) || factor in factors { return false; }
      factors := DisabledAll(factors, user);
      factors := factors[factor := Factor(user, secret, clock, None, false, false, false, [])];
      ok := true;
    }

    /** Checks the two codes of the setup timestep and the next, then stores ten codes. */
    method ConfirmMfa(user: Id, factor: Id, first: string, second: string, clock: int, texts: seq<string>, totp: Codes)
      returns (ok: bool)
      requires |texts| == 10
      modifies this`factors, this`accepted
      ensures View() == Apply(old(View()), Confirm(user, factor, first, second, clock, texts), totp)
      ensures ok <==> |accepted| == |old(accepted)| + 1
    {
      if factor !in factors || factors[factor].user != user || factors[factor].disabled { return false; }
      var f := factors[factor];
      var step := f.setup;
      if clock - step > 4 || step - clock > 4 { return false; }
      if first != totp(f.secret, step) || second != totp(f.secret, step + 1) { return false; }
      if f.last.Some? && f.last.value >= step + 1 { return false; }
      var codes := f.codes;
      for i := 0 to |texts|
        invariant codes == f.codes + Fresh(texts)[..i]
      {
        codes := codes + [Code(texts[i], false)];
      }
      assert Fresh(texts)[..|texts|] == Fresh(texts);
      factors := factors[factor := f.(verified := true, last := Some(step + 1), codes := codes)];
      accepted := accepted + [Accepted(factor, step + 1, clock, true)];
      ok := true;
    }

    /** Tries the three timesteps in order; the match must be later than the last one. */
    method ChallengeMfa(user: Id, factor: Id, code: string, clock: int, totp: Codes) returns (ok: bool)
      modifies this`factors, this`accepted
      ensures View() == Apply(old(View()), Challenge(user, factor, code, clock), totp)
      ensures ok <==> |accepted| == |old(accepted)| + 1
    {
      if factor !in factors || !Usable(factors[factor], user) { return false; }
      var f := factors[factor];
      var found: Option<int> := None;
      var step := clock - 1;
      while step <= clock + 1 && found.None?
        invariant clock - 1 <= step <= clock + 2
        invariant found.None? ==> forall s :: clock - 1 <= s < step ==> totp(f.secret, s) != code
        invariant found.Some? ==> found == MatchedStep(f.secret, clock, code, totp)
        decreases clock + 2 - step
      {
        if totp(f.secret, step) == code { found := Some(step); }
        step := step + 1;
      }
      if found.None? || found.value <= Last(f) { return false; }
      factors := factors[factor := f.(last := found)];
      accepted := accepted + [Accepted(factor, found.value, clock, false)];
      ok := true;
    }

    /** Goes through the unused codes and spends the first that matches. */
    method RecoverMfa(user: Id, factor: Id, code: string, totp: Codes) returns (ok: bool)
      modifies this`factors, this`spent
      ensures View() == Apply(old(View()), Recover(user, factor, code), totp)
      ensures ok <==> |spent| == |old(spent)| + 1
    {
      if factor !in factors || !Usable(factors[factor], user) { return false; }
      var f := factors[factor];
      for k := 0 to |f.codes|
        invariant FirstUnused(f.codes, code, k) == FirstUnused(f.codes, code, 0)
      {
        if !f.codes[k].used && f.codes[k].text == code {
          factors := factors[factor := f.(codes := f.codes[k := f.codes[k].(used := true)])];
          spent := spent + [Spending(factor, k)];
          return true;
        }
      }
      ok := false;
    }
  }
}
