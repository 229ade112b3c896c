/**
 The admin console's second factors (internal/adminmfa/adminmfa.go): an
 authenticator app whose codes work once, and recovery codes that are used up.
 The code generator, the hash and the base32 decoder are parameters, and so are
 the random letters of new codes. Times are nanoseconds.
 */
module SecondFactor {
  import opened Text

  /** totp(key, step), hash(code) and decode(secret) of the libraries. */
  datatype Suite = Suite(totp: (string, int) -> string, hash: string -> string, decode: string -> Option<string>)

  const SECOND := 1_000_000_000
  const PENDING_LIFE := 900_000_000_000
  const PERIOD := 30
  const DIGITS := 6
  const RECOVERY_CODES := 10

  datatype Record = Record(totp: string, pending: string, pendingAt: int, lastStep: int, recovery: seq<string>,
                           passkeys: seq<string>)

  const NO_RECORD := Record("", "", 0, 0, [], [])

  predicate IsEmpty(r: Record) {
    r.totp == "" && r.pending == "" && r.passkeys == []
  }

  type File = map<string, Record>

  function UserOf(f: File, user: string): Record {
    if user in f then f[user] else NO_RECORD
  }

  datatype Error = WrongCode | Active | NoPending | Invalid | IoFailed

  // ---- codes --------------------------------------------------------------

  function NormalizeChar(c: char): string {
    if c == ' ' || c == '-' || c == '\t' then "" else [LowerChar(c)]
  }

  function Normalize(s: string): string {
    if s == "" then "" else NormalizeChar(s[0]) + Normalize(s[1..])
  }

  /** secretHash. */
  function HashOf(suite: Suite, code: string): string {
    suite.hash(Normalize(code))
  }

  /** How a recovery code is shown. */
  function GroupBy4(s: string): string {
    if |s| > 4 then s[..4] + ['-'] + GroupBy4(s[4..]) else s
  }

  predicate Letters(s: string) {
    forall i :: 0 <= i < |s| ==> 'a' <= s[i] <= 'z'
  }

  lemma {:induction false} NormalizeConcat(a: string, b: string)
    ensures Normalize(a + b) == Normalize(a) + Normalize(b)
  {
    if a == "" {
      assert a + b == b;
    } else {
      assert (a + b)[1..] == a[1..] + b;
      NormalizeConcat(a[1..], b);
    }
  }

  lemma {:induction false} NormalizeLetters(s: string)
    requires Letters(s)
    ensures Normalize(s) == s
  {
    if s != "" {
      NormalizeLetters(s[1..]);
      assert s == [s[0]] + s[1..];
    }
  }

  lemma {:induction false} NormalizeDash(s: string, dash: string)
    requires Letters(s) && dash == ['-']
    ensures Normalize(s + dash) == s
  {
    NormalizeConcat(s, dash);
    NormalizeLetters(s);
    assert dash[1..] == "";
  }

  /** A recovery code typed in as it was shown is the code that was hashed. */
  lemma {:induction false} ShownCodeIsStored(s: string)
    requires Letters(s)
    ensures Normalize(GroupBy4(s)) == s
  {
    if |s| > 4 {
      var head, tail := s[..4], s[4..];
      ShownCodeIsStored(tail);
      NormalizeConcat(head + ['-'], GroupBy4(tail));
      NormalizeDash(head, ['-']);
      assert head + tail == s;
    } else {
      NormalizeLetters(s);
    }
  }

  function TimeStep(now: int): int {
    var unix := now / SECOND;
    if unix >= 0 then unix / PERIOD else -((-unix) / PERIOD)
  }

  /** The code belongs to the step, which is later than the last one used. */
  predicate Belongs(suite: Suite, key: string, code: string, st: int, last: int) {
    st > last && suite.totp(key, st) == code
  }

  function MatchTotp(suite: Suite, key: string, code: string, now: int, last: int): Option<int> {
    var step := TimeStep(now);
    if |code| != DIGITS then None
    else if Belongs(suite, key, code, step, last) then Some(step)
    else if Belongs(suite, key, code, step - 1, last) then Some(step - 1)
    else if Belongs(suite, key, code, step + 1, last) then Some(step + 1)
    else None
  }

  method MatchCode(suite: Suite, key: string, code: string, now: int, last: int) returns (r: Option<int>)
    ensures r == MatchTotp(suite, key, code, now, last)
  {
    if |code| != DIGITS {
      return None;
    }
    var step := TimeStep(now);
    var steps := [step, step - 1, step + 1];
    for i := 0 to |steps|
      invariant forall j :: 0 <= j < i ==> !Belongs(suite, key, code, steps[j], last)
    {
      if steps[i] > last && suite.totp(key, steps[i]) == code {
        assert i > 0 ==> !Belongs(suite, key, code, steps[0], last);
        assert i > 1 ==> !Belongs(suite, key, code, steps[1], last);
        return Some(steps[i]);
      }
    }
    assert !Belongs(suite, key, code, steps[0], last) && !Belongs(suite, key, code, steps[1], last)
      && !Belongs(suite, key, code, steps[2], last);
    return None;
  }

  /** The first position of a hash, or the length. */
  function FindHash(recovery: seq<string>, h: string): (i: nat)
    ensures i <= |recovery|
    ensures i < |recovery| <==> h in recovery
    ensures i < |recovery| ==> recovery[i] == h
  {
    if recovery == [] then 0
    else if recovery[0] == h then 0
    else
      assert recovery == [recovery[0]] + recovery[1..];
      1 + FindHash(recovery[1..], h)
  }

  function Without(recovery: seq<string>, i: nat): seq<string>
    requires i < |recovery|
  {
    recovery[..i] + recovery[i + 1..]
  }

  /** Using a recovery code removes exactly one stored hash. */
  lemma {:induction false} OneHashGone(recovery: seq<string>, i: nat)
    requires i < |recovery|
    ensures multiset(recovery) == multiset(Without(recovery, i)) + multiset{recovery[i]}
    ensures |Without(recovery, i)| == |recovery| - 1
  {
    assert recovery == recovery[..i] + [recovery[i]] + recovery[i + 1..];
  }

  // ---- the operations -----------------------------------------------------

  datatype Reply = Refused(err: Error) | Fine | Enrolled(step: int) | Accepted(step: int) | Recovered

  /** What an operation makes of the file it read. */
  datatype Change = Change(file: File, reply: Reply)

  function Fail(f: File, err: Error): Change {
    Change(f, Refused(err))
  }

  datatype Event =
    | Begin(user: string, secret: string, now: int)
    | Confirm(user: string, code: string, letters: seq<string>, now: int)
    | Disable(user: string)
    | NewCodes(user: string, letters: seq<string>)
    | Verify(user: string, code: string, now: int)
    | Reset(user: string)
    | SetPasskeys(user: string, passkeys: seq<string>)   // adding, using and removing passkeys

  function Hashes(suite: Suite, letters: seq<string>): seq<string> {
    seq(|letters|, i requires 0 <= i < |letters| => HashOf(suite, letters[i]))
  }

  // A refused operation may already have changed its working copy of the file.

  function Begun(f: File, user: string, secret: string, now: int): Change {
    var r := UserOf(f, user);
    if r.totp != "" then Fail(f[user := r], Active)
    else Change(f[user := r.(pending := secret, pendingAt := now)], Fine)
  }

  function Confirmed(suite: Suite, f: File, user: string, code: string, letters: seq<string>, now: int): Change {
    var r := UserOf(f, user);
    if r.totp != "" then Fail(f[user := r], Active)
    else if r.pending == "" || now - r.pendingAt > PENDING_LIFE then Fail(f[user := r.(pending := "")], NoPending)
    else
      match suite.decode(r.pending)
      case None => Fail(f[user := r], NoPending)
      case Some(key) =>
        match MatchTotp(suite, key, Normalize(code), now, 0)
        case None => Fail(f[user := r], WrongCode)
        case Some(step) =>
          Change(f[user := r.(totp := r.pending, pending := "", pendingAt := 0, lastStep := step,
                              recovery := Hashes(suite, letters))],
                 Enrolled(step))
  }

  function Disabled(f: File, user: string): Change {
    if user !in f then Change(f, Fine)
    else Change(f[user := f[user].(totp := "", pending := "", pendingAt := 0, lastStep := 0, recovery := [])], Fine)
  }

  function Reissued(suite: Suite, f: File, user: string, letters: seq<string>): Change {
    if UserOf(f, user).totp == "" then Fail(f, Invalid)
    else Change(f[user := UserOf(f, user).(recovery := Hashes(suite, letters))], Fine)
  }

  function AppStep(suite: Suite, r: Record, code: string, now: int): Option<int> {
    match suite.decode(r.totp)
    case None => None
    case Some(key) => MatchTotp(suite, key, code, now, r.lastStep)
  }

  function Verified(suite: Suite, f: File, user: string, typed: string, now: int): Change {
    var code, r := Normalize(typed), UserOf(f, user);
    if r.totp == "" || code == "" then Fail(f, WrongCode)
    else
      match AppStep(suite, r, code, now)
      case Some(step) => Change(f[user := r.(lastStep := step)], Accepted(step))
      case None =>
        var i := FindHash(r.recovery, HashOf(suite, code));
        if i == |r.recovery| then Fail(f, WrongCode)
        else Change(f[user := r.(recovery := Without(r.recovery, i))], Recovered)
  }

  function Changed(suite: Suite, f: File, e: Event): Change {
    match e
    case Begin(user, secret, now) => Begun(f, user, secret, now)
    case Confirm(user, code, letters, now) => Confirmed(suite, f, user, code, letters, now)
    case Disable(user) => Disabled(f, user)
    case NewCodes(user, letters) => Reissued(suite, f, user, letters)
    case Verify(user, code, now) => Verified(suite, f, user, code, now)
    case Reset(user) => Change(f - {user}, Fine)
    case SetPasskeys(user, passkeys) => Change(f[user := UserOf(f, user).(passkeys := passkeys)], Fine)
  }

  /** Users with nothing left are dropped from the file. */
  function Swept(f: File): File {
    map user | user in f && !IsEmpty(f[user]) :: f[user]
  }

  /** Whether locking and reading the file, and writing it back, went well. */
  datatype Io = Io(read: bool, written: bool)

  /** `update` around an operation; Reset does not write for a user it does not find. */
  function Updated(suite: Suite, f: File, e: Event, io: Io): Change {
    if !io.read then Fail(f, IoFailed)
    else if e.Reset? && e.user !in f then Change(f, Fine)
    else
      var c := Changed(suite, f, e);
      if c.reply.Refused? then Fail(f, c.reply.err)
      else if io.written then Change(Swept(c.file), c.reply)
      else Fail(f, IoFailed)
  }

  class Store {
    var stored: File

    constructor ()
      ensures stored == map[]
    {
      stored := map[];
    }

    /** The end of `update`: drop empty users and write the file back. */
    method Commit(file: File, io: Io) returns (err: Option<Error>)
      modifies this
      ensures err == if io.written then None else Some(IoFailed)
      ensures stored == if io.written then Swept(file) else old(stored)
    {
      var swept := file;
      var users := file.Keys;
      while users != {}
        invariant users <= swept.Keys <= file.Keys
        invariant forall u :: u in swept ==> swept[u] == file[u]
        invariant forall u :: u in file && u !in users ==> (u in swept <==> !IsEmpty(file[u]))
      {
        var u :| u in users;
        users := users - {u};
        if IsEmpty(swept[u]) {
          swept := swept - {u};
        }
      }
      if !io.written {
        return Some(IoFailed);
      }
      stored := swept;
      return None;
    }

    /** `update`: nothing is written unless the operation and the write succeed; an error leaves the file as it was. */
    method Update(c: Change, io: Io) returns (reply: Reply)
      requires io.read
      modifies this
      ensures Change(stored, reply) ==
              if c.reply.Refused? then Fail(old(stored), c.reply.err)
              else if io.written then Change(Swept(c.file), c.reply)
              else Fail(old(stored), IoFailed)
      ensures reply.Refused? ==> stored == old(stored)
    {
      if c.reply.Refused? {
        return c.reply;
      }
      var err := Commit(c.file, io);
      return if err.Some? then Refused(err.value) else c.reply;
    }

    method BeginTotp(suite: Suite, user: string, secret: string, now: int, io: Io) returns (reply: Reply)
      modifies this
      ensures Change(stored, reply) == Updated(suite, old(stored), Begin(user, secret, now), io)
      ensures reply.Refused? ==> stored == old(stored)
    {
      if !io.read {
        return Refused(IoFailed);
      }
      var r := UserOf(stored, user);
      var file, result := stored[user := r], Refused(Active);
      if r.totp == "" {
        file, result := file[user := r.(pending := secret, pendingAt := now)], Fine;
      }
      reply := Update(Change(file, result), io);
    }

    method ConfirmTotp(suite: Suite, user: string, code: string, letters: seq<string>, now: int, io: Io)
      returns (reply: Reply)
      modifies this
      ensures Change(stored, reply) == Updated(suite, old(stored), Confirm(user, code, letters, now), io)
      ensures reply.Refused? ==> stored == old(stored)
    {
      var hashed := NewHashes(suite, letters);
      if !io.read {
        return Refused(IoFailed);
      }
      var c := Turn(suite, stored, user, code, hashed, now);
      reply := Update(c, io);
    }

    method DisableTotp(suite: Suite, user: string, io: Io) returns (reply: Reply)
      modifies this
      ensures Change(stored, reply) == Updated(suite, old(stored), Disable(user), io)
      ensures reply.Refused? ==> stored == old(stored)
    {
      if !io.read {
        return Refused(IoFailed);
      }
      var file := stored;
      if user in file {
        file := file[user := file[user].(totp := "", pending := "", pendingAt := 0, lastStep := 0, recovery := [])];
      }
      reply := Update(Change(file, Fine), io);
    }

    method NewRecoveryCodes(suite: Suite, user: string, letters: seq<string>, io: Io) returns (reply: Reply)
      modifies this
      ensures Change(stored, reply) == Updated(suite, old(stored), NewCodes(user, letters), io)
      ensures reply.Refused? ==> stored == old(stored)
    {
      var hashed := NewHashes(suite, letters);
      if !io.read {
        return Refused(IoFailed);
      }
      if user !in stored || stored[user].totp == "" {
        return Refused(Invalid);
      }
      reply := Update(Change(stored[user := stored[user].(recovery := hashed)], Fine), io);
    }

    method VerifyCode(suite: Suite, user: string, code: string, now: int, io: Io) returns (reply: Reply)
      modifies this
      ensures Change(stored, reply) == Updated(suite, old(stored), Verify(user, code, now), io)
      ensures reply.Refused? ==> stored == old(stored)
    {
      if !io.read {
        return Refused(IoFailed);
      }
      var c := Check(suite, stored, user, code, now);
      reply := Update(c, io);
    }

    method ResetUser(suite: Suite, user: string, io: Io) returns (reply: Reply)
      modifies this
      ensures Change(stored, reply) == Updated(suite, old(stored), Reset(user), io)
      ensures reply.Refused? ==> stored == old(stored)
    {
      if !io.read {
        return Refused(IoFailed);
      }
      if user !in stored {
        return Fine;
      }
      reply := Update(Change(stored - {user}, Fine), io);
    }
  }

  /** newRecoveryCodes, given the random letters. */
  method NewHashes(suite: Suite, letters: seq<string>) returns (hashed: seq<string>)
    ensures hashed == Hashes(suite, letters)
  {
    hashed := [];
    for i := 0 to |letters|
      invariant |hashed| == i && forall j :: 0 <= j < i ==> hashed[j] == HashOf(suite, letters[j])
    {
      hashed := hashed + [HashOf(suite, letters[i])];
    }
  }

  /** The change ConfirmTOTP makes. */
  method Turn(suite: Suite, f: File, user: string, code: string, hashed: seq<string>, now: int) returns (c: Change)
    ensures forall letters :: hashed == Hashes(suite, letters) ==> c == Confirmed(suite, f, user, code, letters, now)
  {
    var r := UserOf(f, user);
    var file := f[user := r];
    if r.totp != "" {
      return Fail(file, Active);
    }
    if r.pending == "" || now - r.pendingAt > PENDING_LIFE {
      return Fail(file[user := r.(pending := "")], NoPending);
    }
    var key := suite.decode(r.pending);
    if key.None? {
      return Fail(file, NoPending);
    }
    var step := MatchCode(suite, key.value, Normalize(code), now, 0);
    if step.None? {
      return Fail(file, WrongCode);
    }
    return Change(file[user := r.(totp := r.pending, pending := "", pendingAt := 0, lastStep := step.value,
                                  recovery := hashed)],
                  Enrolled(step.value));
  }

  /** The change VerifyCode makes. */
  method Check(suite: Suite, f: File, user: string, typed: string, now: int) returns (c: Change)
    ensures c == Verified(suite, f, user, typed, now)
  {
    var code := Normalize(typed);
    if user !in f || f[user].totp == "" || code == "" {
      return Fail(f, WrongCode);
    }
    var r := f[user];
    var key := suite.decode(r.totp);
    if key.Some? {
      var step := MatchCode(suite, key.value, code, now, r.lastStep);
      if step.Some? {
        return Change(f[user := r.(lastStep := step.value)], Accepted(step.value));
      }
    }
    var h := HashOf(suite, code);
    var i := LookForHash(r.recovery, h);
    if i < |r.recovery| {
      return Change(f[user := r.(recovery := r.recovery[..i] + r.recovery[i + 1..])], Recovered);
    }
    return Fail(f, WrongCode);
  }

  method LookForHash(recovery: seq<string>, h: string) returns (i: nat)
    ensures i == FindHash(recovery, h)
  {
    i := 0;
    while i < |recovery| && recovery[i] != h
      invariant i <= |recovery| && FindHash(recovery, h) == i + FindHash(recovery[i..], h)
    {
      i := i + 1;
    }
  }

  // ---- whole runs ---------------------------------------------------------

  /** New recovery codes come ten at a time. */
  predicate IsEvent(e: Event) {
    e.Confirm? || e.NewCodes? ==> |e.letters| == RECOVERY_CODES
  }

  /** A run: the file before each call and after the last, the calls, and how reading and writing went. */
  ghost predicate IsRun(suite: Suite, files: seq<File>, events: seq<Event>, ios: seq<Io>) {
    && |files| == |events| + 1 && |ios| == |events|
    && forall i :: 0 <= i < |events| ==>
         IsEvent(events[i]) && files[i + 1] == Updated(suite, files[i], events[i], ios[i]).file
  }

  ghost function ReplyAt(suite: Suite, files: seq<File>, events: seq<Event>, ios: seq<Io>, i: nat): Reply
    requires IsRun(suite, files, events, ios) && i < |events|
  {
    Updated(suite, files[i], events[i], ios[i]).reply
  }

  // ---- a code works once --------------------------------------------------

  /** While the app is on, only steps after this one are taken. */
  predicate PastStep(f: File, user: string, step: int) {
    UserOf(f, user).totp != "" ==> UserOf(f, user).lastStep >= step
  }

  lemma {:induction false} SweptUser(f: File, user: string)
    ensures user in Swept(f) ==> user in f && Swept(f)[user] == f[user]
    ensures user !in Swept(f) ==> UserOf(f, user).totp == "" && UserOf(Swept(f), user) == NO_RECORD
  {}

  /** A code taken for a step: later than the last one, within one step of the clock. */
  lemma {:induction false} TakenStep(suite: Suite, f: File, e: Event, io: Io)
    requires Updated(suite, f, e, io).reply.Accepted?
    ensures var c := Updated(suite, f, e, io);
            && e.Verify? && UserOf(f, e.user).totp != ""
            && c.reply.step > UserOf(f, e.user).lastStep
            && TimeStep(e.now) - 1 <= c.reply.step <= TimeStep(e.now) + 1
            && UserOf(c.file, e.user).lastStep == c.reply.step
  {
    SweptUser(Changed(suite, f, e).file, e.user);
  }

  lemma {:induction false} EnrolledStep(suite: Suite, f: File, e: Event, io: Io)
    requires Updated(suite, f, e, io).reply.Enrolled?
    ensures var c := Updated(suite, f, e, io);
            && e.Confirm? && TimeStep(e.now) - 1 <= c.reply.step <= TimeStep(e.now) + 1
            && PastStep(c.file, e.user, c.reply.step)
  {
    SweptUser(Changed(suite, f, e).file, e.user);
  }

  /** Only a new enrolment goes back. */
  lemma {:induction false} PastStays(suite: Suite, f: File, e: Event, io: Io, user: string, step: int)
    requires PastStep(f, user, step) && !(Updated(suite, f, e, io).reply.Enrolled? && e.user == user)
    ensures PastStep(Updated(suite, f, e, io).file, user, step)
  {
    SweptUser(Changed(suite, f, e).file, user);
  }

  /** No enrolment of the user between two calls. */
  ghost predicate SameEnrolment(suite: Suite, files: seq<File>, events: seq<Event>, ios: seq<Io>, user: string, i: nat,
                                j: nat)
    requires IsRun(suite, files, events, ios) && i <= j <= |events|
  {
    forall k :: i <= k < j ==> !(ReplyAt(suite, files, events, ios, k).Enrolled? && events[k].user == user)
  }

  lemma {:induction false} PastThrough(suite: Suite, files: seq<File>, events: seq<Event>, ios: seq<Io>, user: string,
                                       i: nat, j: nat, step: int)
    requires IsRun(suite, files, events, ios) && i <= j <= |events|
    requires PastStep(files[i], user, step) && SameEnrolment(suite, files, events, ios, user, i, j)
    ensures PastStep(files[j], user, step)
  {
    if i < j {
      PastThrough(suite, files, events, ios, user, i, j - 1, step);
      assert !(ReplyAt(suite, files, events, ios, j - 1).Enrolled? && events[j - 1].user == user);
      PastStays(suite, files[j - 1], events[j - 1], ios[j - 1], user, step);
    }
  }

  /**
   Between enrolments the steps of accepted codes strictly increase, from the code that
   confirmed the enrolment on, and each is within one step of the clock.
   */
  lemma {:induction false} StepsIncrease(suite: Suite, files: seq<File>, events: seq<Event>, ios: seq<Io>, i: nat,
                                         j: nat)
    requires IsRun(suite, files, events, ios) && i < j < |events| && events[i].user == events[j].user
    requires ReplyAt(suite, files, events, ios, i).Accepted? || ReplyAt(suite, files, events, ios, i).Enrolled?
    requires ReplyAt(suite, files, events, ios, j).Accepted?
    requires SameEnrolment(suite, files, events, ios, events[i].user, i + 1, j)
    ensures ReplyAt(suite, files, events, ios, i).step < ReplyAt(suite, files, events, ios, j).step
    ensures events[j].Verify?
            && TimeStep(events[j].now) - 1 <= ReplyAt(suite, files, events, ios, j).step <= TimeStep(events[j].now) + 1
  {
    var user, step := events[i].user, ReplyAt(suite, files, events, ios, i).step;
    if ReplyAt(suite, files, events, ios, i).Accepted? {
      TakenStep(suite, files[i], events[i], ios[i]);
    } else {
      EnrolledStep(suite, files[i], events[i], ios[i]);
    }
    assert files[i + 1] == Updated(suite, files[i], events[i], ios[i]).file;
    PastThrough(suite, files, events, ios, user, i + 1, j, step);
    TakenStep(suite, files[j], events[j], ios[j]);
  }

  // ---- recovery codes -----------------------------------------------------

  /** The call gave the user new recovery codes. */
  predicate Issues(e: Event, reply: Reply, user: string) {
    e.user == user && !reply.Refused? && (e.Confirm? || e.NewCodes?)
  }

  /** A recovery sign-in takes exactly one of the user's hashes, the one of its code. */
  lemma {:induction false} RecoveryTakesOne(suite: Suite, f: File, e: Event, io: Io)
    requires Updated(suite, f, e, io).reply == Recovered
    ensures var g := Updated(suite, f, e, io).file;
            && e.Verify? && e.user in f && e.user in g
            && multiset(f[e.user].recovery) == multiset(g[e.user].recovery) + multiset{HashOf(suite, Normalize(e.code))}
            && |g[e.user].recovery| == |f[e.user].recovery| - 1
  {
    var r := UserOf(f, e.user);
    SweptUser(Changed(suite, f, e).file, e.user);
    var i := FindHash(r.recovery, HashOf(suite, Normalize(e.code)));
    OneHashGone(r.recovery, i);
  }

  /** Nothing but a new issue gives a user more recovery codes. */
  lemma {:induction false} RecoveryOnlyShrinks(suite: Suite, f: File, e: Event, io: Io, user: string)
    requires !Issues(e, Updated(suite, f, e, io).reply, user)
    ensures var c := Updated(suite, f, e, io);
            |UserOf(c.file, user).recovery| + (if c.reply == Recovered && e.user == user then 1 else 0)
            <= |UserOf(f, user).recovery|
  {
    var c := Updated(suite, f, e, io);
    if c.reply == Recovered && e.user == user {
      RecoveryTakesOne(suite, f, e, io);
    } else {
      SweptUser(Changed(suite, f, e).file, user);
    }
  }

  lemma {:induction false} IssueIsTen(suite: Suite, f: File, e: Event, io: Io, user: string)
    requires IsEvent(e) && Issues(e, Updated(suite, f, e, io).reply, user)
    ensures |UserOf(Updated(suite, f, e, io).file, user).recovery| <= 10
  {
    SweptUser(Changed(suite, f, e).file, user);
  }

  /** One if the call was a recovery sign-in of the user. */
  ghost function RecoveryAt(suite: Suite, files: seq<File>, events: seq<Event>, ios: seq<Io>, user: string, k: nat): nat
    requires IsRun(suite, files, events, ios) && k < |events|
  {
    if ReplyAt(suite, files, events, ios, k) == Recovered && events[k].user == user then 1 else 0
  }

  /** The recovery sign-ins of a user among the calls from i to j. */
  ghost function Recoveries(suite: Suite, files: seq<File>, events: seq<Event>, ios: seq<Io>, user: string, i: nat,
                            j: nat): nat
    requires IsRun(suite, files, events, ios) && i <= j <= |events|
  {
    if i == j then 0
    else Recoveries(suite, files, events, ios, user, i, j - 1) + RecoveryAt(suite, files, events, ios, user, j - 1)
  }

  lemma {:induction false} RecoveryAtShrinks(suite: Suite, files: seq<File>, events: seq<Event>, ios: seq<Io>,
                                             user: string, k: nat)
    requires IsRun(suite, files, events, ios) && k < |events|
    requires !Issues(events[k], ReplyAt(suite, files, events, ios, k), user)
    ensures |UserOf(files[k + 1], user).recovery| + RecoveryAt(suite, files, events, ios, user, k)
            <= |UserOf(files[k], user).recovery|
  {
    RecoveryOnlyShrinks(suite, files[k], events[k], ios[k], user);
    assert files[k + 1] == Updated(suite, files[k], events[k], ios[k]).file;
  }

  lemma {:induction false} RecoveriesBounded(suite: Suite, files: seq<File>, events: seq<Event>, ios: seq<Io>,
                                             user: string, i: nat, j: nat)
    requires IsRun(suite, files, events, ios) && i <= j <= |events|
    requires forall k :: i <= k < j ==> !Issues(events[k], ReplyAt(suite, files, events, ios, k), user)
    ensures Recoveries(suite, files, events, ios, user, i, j) + |UserOf(files[j], user).recovery|
            <= |UserOf(files[i], user).recovery|
  {
    if i < j {
      var k := j - 1;
      RecoveriesBounded(suite, files, events, ios, user, i, k);
      RecoveryAtShrinks(suite, files, events, ios, user, k);
    }
  }

  /** At most ten recovery sign-ins succeed between one issue of codes and the next. */
  lemma {:induction false} TenPerIssue(suite: Suite, files: seq<File>, events: seq<Event>, ios: seq<Io>, user: string,
                                       i: nat, j: nat)
    requires IsRun(suite, files, events, ios) && i < j <= |events|
    requires Issues(events[i], ReplyAt(suite, files, events, ios, i), user)
    requires forall k :: i < k < j ==> !Issues(events[k], ReplyAt(suite, files, events, ios, k), user)
    ensures Recoveries(suite, files, events, ios, user, i + 1, j) <= 10
  {
    assert files[i + 1] == Updated(suite, files[i], events[i], ios[i]).file;
    IssueIsTen(suite, files[i], events[i], ios[i], user);
    RecoveriesBounded(suite, files, events, ios, user, i + 1, j);
  }

  /** A recovery code still stored signs its user in when typed as it was shown. */
  lemma {:induction false} ShownCodeWorks(suite: Suite, f: File, user: string, code: string, now: int)
    requires Letters(code) && code != "" && user in f && f[user].totp != "" && HashOf(suite, code) in f[user].recovery
    ensures !Verified(suite, f, user, GroupBy4(code), now).reply.Refused?
  {
    ShownCodeIsStored(code);
  }

  /** Right after they are issued, each of the ten codes is stored. */
  lemma {:induction false} IssuedCodesAreStored(suite: Suite, f: File, e: Event, io: Io, i: nat)
    requires (e.Confirm? || e.NewCodes?) && !Updated(suite, f, e, io).reply.Refused? && i < |e.letters|
    ensures e.user in Updated(suite, f, e, io).file
    ensures HashOf(suite, e.letters[i]) in Updated(suite, f, e, io).file[e.user].recovery
  {
    SweptUser(Changed(suite, f, e).file, e.user);
    var hashes := Hashes(suite, e.letters);
    assert hashes[i] == HashOf(suite, e.letters[i]);
  }

  // ---- turning the app on and off -----------------------------------------

  /** The app is off for a user. */
  predicate IsOff(f: File, user: string) {
    UserOf(f, user).totp == ""
  }

  /** Turning the app off, or resetting the user, leaves it off. */
  lemma {:induction false} TurnedOff(suite: Suite, f: File, e: Event, io: Io)
    requires (e.Disable? || e.Reset?) && !Updated(suite, f, e, io).reply.Refused?
    ensures IsOff(Updated(suite, f, e, io).file, e.user)
  {
    SweptUser(Changed(suite, f, e).file, e.user);
  }

  lemma {:induction false} OffStays(suite: Suite, f: File, e: Event, io: Io, user: string)
    requires IsOff(f, user) && !(Updated(suite, f, e, io).reply.Enrolled? && e.user == user)
    ensures IsOff(Updated(suite, f, e, io).file, user)
  {
    SweptUser(Changed(suite, f, e).file, user);
  }

  lemma {:induction false} OffThrough(suite: Suite, files: seq<File>, events: seq<Event>, ios: seq<Io>, user: string,
                                      i: nat, j: nat)
    requires IsRun(suite, files, events, ios) && i <= j <= |events|
    requires IsOff(files[i], user) && SameEnrolment(suite, files, events, ios, user, i, j)
    ensures IsOff(files[j], user)
  {
    if i < j {
      OffThrough(suite, files, events, ios, user, i, j - 1);
      assert !(ReplyAt(suite, files, events, ios, j - 1).Enrolled? && events[j - 1].user == user);
      OffStays(suite, files[j - 1], events[j - 1], ios[j - 1], user);
    }
  }

  lemma {:induction false} OffIsRefused(suite: Suite, f: File, e: Event, io: Io)
    requires e.Verify? && IsOff(f, e.user)
    ensures Updated(suite, f, e, io).reply.Refused?
  {}

  /** Once turned off or reset, every code of the user is refused until the next enrolment. */
  lemma {:induction false} OffUntilEnrolled(suite: Suite, files: seq<File>, events: seq<Event>, ios: seq<Io>, i: nat,
                                            j: nat)
    requires IsRun(suite, files, events, ios) && i < j < |events| && events[i].user == events[j].user
    requires (events[i].Disable? || events[i].Reset?) && !ReplyAt(suite, files, events, ios, i).Refused?
             && events[j].Verify?
    requires SameEnrolment(suite, files, events, ios, events[i].user, i + 1, j)
    ensures ReplyAt(suite, files, events, ios, j).Refused?
  {
    TurnedOff(suite, files[i], events[i], ios[i]);
    assert files[i + 1] == Updated(suite, files[i], events[i], ios[i]).file;
    OffThrough(suite, files, events, ios, events[i].user, i + 1, j);
    OffIsRefused(suite, files[j], events[j], ios[j]);
  }

  /** A pending secret of a user was begun by this call. */
  ghost predicate BegunBy(suite: Suite, files: seq<File>, events: seq<Event>, ios: seq<Io>, k: nat, user: string,
                          secret: string, at: int)
    requires IsRun(suite, files, events, ios)
  {
    k < |events| && events[k] == Begin(user, secret, at) && !ReplyAt(suite, files, events, ios, k).Refused?
  }

  /** A call leaves a pending secret as it was, drops it, or is the Begin that set it. */
  lemma {:induction false} PendingStep(suite: Suite, f: File, e: Event, io: Io, user: string)
    requires UserOf(Updated(suite, f, e, io).file, user).pending != ""
    ensures var r := UserOf(Updated(suite, f, e, io).file, user);
            || (r.pending == UserOf(f, user).pending && r.pendingAt == UserOf(f, user).pendingAt)
            || (e == Begin(user, r.pending, r.pendingAt) && !Updated(suite, f, e, io).reply.Refused?)
  {
    SweptPending(Changed(suite, f, e).file, user);
  }

  lemma {:induction false} SweptPending(f: File, user: string)
    ensures UserOf(Swept(f), user).pending == UserOf(f, user).pending
    ensures UserOf(f, user).pending != "" ==> UserOf(Swept(f), user) == UserOf(f, user)
  {}

  lemma {:induction false} PendingWasBegun(suite: Suite, files: seq<File>, events: seq<Event>, ios: seq<Io>, j: nat,
                                           user: string)
    returns (k: nat)
    requires IsRun(suite, files, events, ios) && j <= |events| && files[0] == map[]
             && UserOf(files[j], user).pending != ""
    ensures var r := UserOf(files[j], user);
            k < j && BegunBy(suite, files, events, ios, k, user, r.pending, r.pendingAt)
  {
    var i := j - 1;
    assert files[j] == Updated(suite, files[i], events[i], ios[i]).file;
    PendingStep(suite, files[i], events[i], ios[i], user);
    if events[i] == Begin(user, UserOf(files[j], user).pending, UserOf(files[j], user).pendingAt)
      && !ReplyAt(suite, files, events, ios, i).Refused? {
      k := i;
    } else {
      k := PendingWasBegun(suite, files, events, ios, i, user);
    }
  }

  lemma {:induction false} EnrolmentUsesPending(suite: Suite, f: File, e: Event, io: Io)
    requires Updated(suite, f, e, io).reply.Enrolled?
    ensures var r := UserOf(f, e.user);
            e.Confirm? && r.pending != "" && e.now - r.pendingAt <= PENDING_LIFE
            && UserOf(Updated(suite, f, e, io).file, e.user).totp == r.pending
  {
    SweptUser(Changed(suite, f, e).file, e.user);
  }

  /**
   In a run from an empty file, an authenticator is turned on only with a secret begun for
   that user at most 15 minutes before.
   */
  lemma {:induction false} EnrolmentIsTimely(suite: Suite, files: seq<File>, events: seq<Event>, ios: seq<Io>, j: nat)
    returns (k: nat)
    requires IsRun(suite, files, events, ios) && j < |events| && files[0] == map[]
             && ReplyAt(suite, files, events, ios, j).Enrolled?
    ensures k < j && events[k].Begin? && events[k].user == events[j].user
            && !ReplyAt(suite, files, events, ios, k).Refused?
    ensures UserOf(files[j + 1], events[j].user).totp == events[k].secret
    ensures events[j].Confirm? && events[j].now - events[k].now <= 900_000_000_000
  {
    EnrolmentUsesPending(suite, files[j], events[j], ios[j]);
    assert files[j + 1] == Updated(suite, files[j], events[j], ios[j]).file;
    k := PendingWasBegun(suite, files, events, ios, j, events[j].user);
  }
}
