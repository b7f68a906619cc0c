/** One configuration update: the edited copy, the compare-and-swap transaction, and the reload. */
module ConfigUpdate {
  import opened Int64
  import opened Outcomes
  import opened TextForms

  type u16 = x: int | 0 <= x < 0x1_0000
  type u64 = x: int | 0 <= x <= U64_MAX

  datatype Config = Config(
    revision: u64, host: string, port: u16, scheme: string, username: string, password: string,
    acceptInvalidCerts: bool, pollSecs: u64, probeSecs: u64, serverPort: u16,
    rawRetentionDays: u64, totalRetentionDays: u64, theme: string, latencyGoodMs: u64, latencyPoorMs: u64,
    allowInsecureHttp: bool)

  datatype PasswordMode = Keep | Replace | Clear

  datatype BoolValue = Flag(value: bool) | Text(text: string)

  datatype Body = Body(
    expectedRevision: Option<u64>, host: Option<string>, port: Option<u16>, scheme: Option<string>,
    username: Option<string>, password: Option<string>, passwordMode: Option<PasswordMode>,
    acceptInvalidCerts: Option<BoolValue>, pollSecs: Option<u64>, probeSecs: Option<u64>,
    rawRetentionDays: Option<u64>, totalRetentionDays: Option<u64>, latencyGoodMs: Option<u64>,
    latencyPoorMs: Option<u64>, theme: Option<string>, wizardCompleted: Option<BoolValue>)

  datatype Failure = InvalidData | Conflict

  datatype Reply<+T> = Done(value: T) | Failed(why: Failure)

  /** Keys of the config table; `Legacy` ones predate the router_* names. */
  datatype Key =
    | ConfigRevision | RouterHost | RouterPort | RouterScheme | RouterUsername | AcceptInvalidCerts
    | PollSecs | ProbeSecs | RawRetentionDays | TotalRetentionDays | LatencyGoodMs | LatencyPoorMs
    | Theme | WizardCompleted | ServerPort | LegacyHost | LegacyPort | LegacyScheme | LegacyUsername

  /** `secret` is the stored router password, as decrypting it gives it back. */
  datatype Db = Db(values: map<Key, string>, secret: Option<string>)

  datatype SecretChange = Unchanged | Store(password: string) | Delete

  datatype Plan = Plan(next: Config, values: seq<(Key, string)>, secret: SecretChange)

  function Or<T>(o: Option<T>, fallback: T): T {
    if o.Some? then o.value else fallback
  }

  function BoolOf(v: BoolValue): Option<bool> {
    match v
    case Flag(b) => Some(b)
    case Text(t) => if t in ["true", "1"] then Some(true) else if t in ["false", "0"] then Some(false) else None
  }

  predicate BadFlag(v: Option<BoolValue>) { v.Some? && BoolOf(v.value).None? }

  function FlagOr(v: Option<BoolValue>, fallback: bool): bool
    requires !BadFlag(v)
  {
    if v.Some? then BoolOf(v.value).value else fallback
  }

  const PASSWORD_MASK := "********"

  function EditedConnection(c: Config, b: Body): Config
    requires !BadFlag(b.acceptInvalidCerts)
  {
    c.(host := if b.host.Some? then Trim(b.host.value) else c.host,
       port := Or(b.port, c.port),
       scheme := if b.scheme.Some? then Lower(b.scheme.value) else c.scheme,
       username := if b.username.Some? then Trim(b.username.value) else c.username,
       acceptInvalidCerts := FlagOr(b.acceptInvalidCerts, c.acceptInvalidCerts))
  }

  function EditedLimits(c: Config, b: Body): Config {
    c.(pollSecs := Or(b.pollSecs, c.pollSecs),
       probeSecs := Or(b.probeSecs, c.probeSecs),
       rawRetentionDays := Or(b.rawRetentionDays, c.rawRetentionDays),
       totalRetentionDays := Or(b.totalRetentionDays, c.totalRetentionDays))
  }

  function EditedDisplay(c: Config, b: Body): Config {
    c.(latencyGoodMs := Or(b.latencyGoodMs, c.latencyGoodMs),
       latencyPoorMs := Or(b.latencyPoorMs, c.latencyPoorMs),
       theme := if b.theme.Some? then Lower(b.theme.value) else c.theme)
  }

  /** The copy of the current configuration with the fields of the request written over it. */
  function Edited(c: Config, b: Body): Config
    requires !BadFlag(b.acceptInvalidCerts)
  {
    EditedDisplay(EditedLimits(EditedConnection(c, b), b), b)
  }

  predicate ConnectionChanged(a: Config, b: Config) {
    a.host != b.host || a.port != b.port || a.scheme != b.scheme || a.username != b.username
    || a.acceptInvalidCerts != b.acceptInvalidCerts
  }

  function ModeOf(b: Body): PasswordMode {
    Or(b.passwordMode, if b.password.Some? && b.password.value != "" && b.password.value != PASSWORD_MASK then Replace
      else Keep)
  }

  predicate GoodPassword(p: Option<string>) {
    p.Some? && p.value != "" && ByteLength(p.value) <= 1024 && p.value != PASSWORD_MASK
  }

  /** The limits every accepted configuration meets. */
  predicate Valid(c: Config) {
    && c.port != 0 && 1 <= c.pollSecs <= 30 && 10 <= c.probeSecs <= 600
    && 1 <= c.rawRetentionDays <= 30 && 7 <= c.totalRetentionDays <= 365 && c.rawRetentionDays <= c.totalRetentionDays
    && 1 <= c.latencyGoodMs <= 500 && 1 <= c.latencyPoorMs <= 2000 && c.latencyGoodMs < c.latencyPoorMs
    && Trim(c.host) != "" && ByteLength(c.host) <= 253
    && Trim(c.username) != "" && ByteLength(c.username) <= 128
    && (c.scheme == "https" || (c.scheme == "http" && c.allowInsecureHttp))
    && c.theme in ["system", "light", "dark"]
  }

  function Persisted(c: Config): seq<(Key, string)> {
    [(RouterHost, c.host), (RouterPort, ToText(c.port)), (RouterScheme, c.scheme), (RouterUsername, c.username),
     (AcceptInvalidCerts, FlagText(c.acceptInvalidCerts)), (PollSecs, ToText(c.pollSecs)),
     (ProbeSecs, ToText(c.probeSecs)),
     (RawRetentionDays, ToText(c.rawRetentionDays)), (TotalRetentionDays, ToText(c.totalRetentionDays)),
     (LatencyGoodMs, ToText(c.latencyGoodMs)), (LatencyPoorMs, ToText(c.latencyPoorMs)), (Theme, c.theme)]
  }

  function WithPassword(c: Config, b: Body, edited: Config): Reply<(Config, SecretChange)> {
    match ModeOf(b)
    case Keep => if ConnectionChanged(edited, c) then Failed(InvalidData) else Done((edited, Unchanged))
    case Replace =>
      if !GoodPassword(b.password) then Failed(InvalidData)
      else Done((edited.(password := b.password.value), Store(b.password.value)))
    case Clear => Done((edited.(password := ""), Delete))
  }

  /** Everything an update works out from the copy it read, before touching the database. */
  function PlanUpdate(c: Config, b: Body): Reply<Plan> {
    if b.expectedRevision.None? then Failed(InvalidData)
    else if b.expectedRevision.value != c.revision then Failed(Conflict)
    else if BadFlag(b.acceptInvalidCerts) then Failed(InvalidData)
    else
      var secured := WithPassword(c, b, Edited(c, b));
      if secured.Failed? then Failed(secured.why)
      else if !Valid(secured.value.0) || BadFlag(b.wizardCompleted) then Failed(InvalidData)
      else
        var wizard :=
          if b.wizardCompleted.Some? then [(WizardCompleted, FlagText(BoolOf(b.wizardCompleted.value).value))] else [];
        Done(Plan(secured.value.0, Persisted(secured.value.0) + wizard, secured.value.1))
  }

  // ----- the transaction

  function ParseU64(s: string): Option<u64> {
    var n := ParseUnsigned(s, U64_MAX);
    if n.Some? then Some(n.value) else None
  }

  function ParseU16(s: string): Option<u16> {
    var n := ParseUnsigned(s, 0xFFFF);
    if n.Some? then Some(n.value) else None
  }

  function Lookup(db: Db, key: Key): Option<string> {
    if key in db.values then Some(db.values[key]) else None
  }

  function NumberAt(db: Db, key: Key, fallback: u64): u64 {
    if key in db.values then Or(ParseU64(db.values[key]), fallback) else fallback
  }

  function DbRevision(db: Db): u64 { NumberAt(db, ConfigRevision, 0) }

  function NextRevision(r: u64): u64 { if r == U64_MAX then U64_MAX else r + 1 }

  function PutAll(values: map<Key, string>, rows: seq<(Key, string)>): map<Key, string>
    decreases |rows|
  {
    if rows == [] then values
    else PutAll(values, rows[..|rows| - 1])[rows[|rows| - 1].0 := rows[|rows| - 1].1]
  }

  function SaveTransaction(db: Db, rows: seq<(Key, string)>, secret: SecretChange, expected: Option<u64>): (Db, bool) {
    if expected.Some? && expected.value != DbRevision(db) then (db, false)
    else
      var values := PutAll(db.values, rows);
      var stored := match secret case Unchanged => db.secret case Store(p) => Some(p) case Delete => None;
      var revised :=
        if expected.Some? then values[ConfigRevision := ToText(NextRevision(DbRevision(db)))] else values;
      (Db(revised, stored), true)
  }

  // ----- loading at start

  /** Defaults from the environment. */
  datatype Env = Env(
    host: string, port: u16, scheme: string, username: string, password: string, acceptInvalidCerts: bool,
    pollSecs: u64, probeSecs: u64, serverPort: u16, rawRetentionDays: u64, totalRetentionDays: u64,
    latencyGoodMs: u64, latencyPoorMs: u64, allowInsecureHttp: bool)

  function FirstOf(a: Option<string>, b: Option<string>): Option<string> {
    if a.Some? then a else b
  }

  function PortOf(text: Option<string>, fallback: u16): u16 {
    if text.Some? then Or(ParseU16(text.value), fallback) else fallback
  }

  function SchemeOf(text: Option<string>, fallback: string): string {
    if text.Some? && Lower(text.value) in ["http", "https"] then Lower(text.value) else fallback
  }

  function Merged(env: Env, db: Db): Config {
    Config(
      DbRevision(db),
      Or(FirstOf(Lookup(db, RouterHost), Lookup(db, LegacyHost)), env.host),
      PortOf(FirstOf(Lookup(db, RouterPort), Lookup(db, LegacyPort)), env.port),
      SchemeOf(FirstOf(Lookup(db, RouterScheme), Lookup(db, LegacyScheme)), env.scheme),
      Or(FirstOf(Lookup(db, RouterUsername), Lookup(db, LegacyUsername)), env.username),
      Or(db.secret, env.password),
      if AcceptInvalidCerts in db.values then db.values[AcceptInvalidCerts] in ["true", "1"]
        else env.acceptInvalidCerts,
      NumberAt(db, PollSecs, env.pollSecs),
      NumberAt(db, ProbeSecs, env.probeSecs),
      PortOf(Lookup(db, ServerPort), env.serverPort),
      NumberAt(db, RawRetentionDays, env.rawRetentionDays),
      NumberAt(db, TotalRetentionDays, env.totalRetentionDays),
      Or(Lookup(db, Theme), "system"),
      NumberAt(db, LatencyGoodMs, env.latencyGoodMs),
      NumberAt(db, LatencyPoorMs, env.latencyPoorMs),
      env.allowInsecureHttp)
  }

  /** Loading stores a password that only the environment had, and refuses a bad configuration. */
  function Load(env: Env, db: Db): Reply<(Config, Db)> {
    var c := Merged(env, db);
    if !Valid(c) then Failed(InvalidData)
    else Done((c, if db.secret.None? && env.password != "" then db.(secret := Some(env.password)) else db))
  }

  // ----- the shared state

  /** The update handler's edits, field by field, on a copy of the configuration. */
  method EditConnection(current: Config, body: Body) returns (next: Config)
    requires !BadFlag(body.acceptInvalidCerts)
    ensures next == EditedConnection(current, body)
  {
    next := current;
    if body.host.Some? { next := next.(host := Trim(body.host.value)); }
    if body.port.Some? { next := next.(port := body.port.value); }
    if body.scheme.Some? { next := next.(scheme := Lower(body.scheme.value)); }
    if body.username.Some? { next := next.(username := Trim(body.username.value)); }
    if body.acceptInvalidCerts.Some? {
      next := next.(acceptInvalidCerts := BoolOf(body.acceptInvalidCerts.value).value);
    }
  }

  method EditLimits(current: Config, body: Body) returns (next: Config)
    ensures next == EditedLimits(current, body)
  {
    next := current;
    if body.pollSecs.Some? { next := next.(pollSecs := body.pollSecs.value); }
    if body.probeSecs.Some? { next := next.(probeSecs := body.probeSecs.value); }
    if body.rawRetentionDays.Some? { next := next.(rawRetentionDays := body.rawRetentionDays.value); }
    if body.totalRetentionDays.Some? { next := next.(totalRetentionDays := body.totalRetentionDays.value); }
  }

  method EditDisplay(current: Config, body: Body) returns (next: Config)
    ensures next == EditedDisplay(current, body)
  {
    next := current;
    if body.latencyGoodMs.Some? { next := next.(latencyGoodMs := body.latencyGoodMs.value); }
    if body.latencyPoorMs.Some? { next := next.(latencyPoorMs := body.latencyPoorMs.value); }
    if body.theme.Some? { next := next.(theme := Lower(body.theme.value)); }
  }

  method ChoosePassword(current: Config, body: Body, edited: Config) returns (r: Reply<(Config, SecretChange)>)
    ensures r == WithPassword(current, body, edited)
  {
    match ModeOf(body) {
      case Keep =>
        if ConnectionChanged(edited, current) {
          return Failed(InvalidData);
        }
        return Done((edited, Unchanged));
      case Replace =>
        if !GoodPassword(body.password) {
          return Failed(InvalidData);
        }
        return Done((edited.(password := body.password.value), Store(body.password.value)));
      case Clear =>
        return Done((edited.(password := ""), Delete));
    }
  }

  method PrepareUpdate(current: Config, body: Body) returns (r: Reply<Plan>)
    ensures r == PlanUpdate(current, body)
  {
    if body.expectedRevision.None? {
      return Failed(InvalidData);
    }
    if body.expectedRevision.value != current.revision {
      return Failed(Conflict);
    }
    if BadFlag(body.acceptInvalidCerts) {
      return Failed(InvalidData);
    }
    var next := EditConnection(current, body);
    next := EditLimits(next, body);
    next := EditDisplay(next, body);
    var secured := ChoosePassword(current, body, next);
    if secured.Failed? {
      return Failed(secured.why);
    }
    next := secured.value.0;
    if !Valid(next) {
      return Failed(InvalidData);
    }
    var persisted := Persisted(next);
    if body.wizardCompleted.Some? {
      var flag := BoolOf(body.wizardCompleted.value);
      if flag.None? {
        return Failed(InvalidData);
      }
      persisted := persisted + [(WizardCompleted, FlagText(flag.value))];
    } else {
      assert persisted + [] == persisted;
    }
    return Done(Plan(next, persisted, secured.value.1));
  }

  class AppState {
    var values: map<Key, string>
    var secret: Option<string>
    var config: Config

    function Database(): Db
      reads this
    {
      Db(values, secret)
    }

    constructor (db: Db, config: Config)
      ensures Database() == db && this.config == config
    {
      this.values, this.secret, this.config := db.values, db.secret, config;
    }

    method SaveConfigTransaction(rows: seq<(Key, string)>, change: SecretChange, expected: Option<u64>)
      returns (saved: bool)
      modifies this`values, this`secret
      ensures (Database(), saved) == SaveTransaction(old(Database()), rows, change, expected)
    {
      var current := DbRevision(Database());
      if expected.Some? && expected.value != current {
        return false;
      }
      for i := 0 to |rows|
        invariant values == PutAll(old(values), rows[..i]) && secret == old(secret)
      {
        assert rows[..i + 1][..i] == rows[..i];
        values := values[rows[i].0 := rows[i].1];
      }
      assert rows[..|rows|] == rows;
      match change {
        case Unchanged =>
        case Store(p) => secret := Some(p);
        case Delete => secret := None;
      }
      if expected.Some? {
        values := values[ConfigRevision := ToText(NextRevision(current))];
      }
      return true;
    }

    /** The part of the handler between reading the copy and publishing the result. */
    method CommitUpdate(current: Config, body: Body) returns (r: Reply<Config>)
      modifies this`values, this`secret
      ensures var plan := PlanUpdate(current, body);
        if plan.Failed? then Database() == old(Database()) && r == Failed(plan.why)
        else if current.revision != DbRevision(old(Database())) then Database() == old(Database())
          && r == Failed(Conflict)
        else
          && Database() == SaveTransaction(old(Database()), plan.value.values, plan.value.secret,
            Some(current.revision)).0
          && r == Done(plan.value.next.(revision := NextRevision(current.revision)))
    {
      var plan := PrepareUpdate(current, body);
      if plan.Failed? {
        return Failed(plan.why);
      }
      var saved := SaveConfigTransaction(plan.value.values, plan.value.secret, body.expectedRevision);
      if !saved {
        return Failed(Conflict);
      }
      return Done(plan.value.next.(revision := NextRevision(body.expectedRevision.value)));
    }

    method Publish(next: Config)
      modifies this`config
      ensures config == next
    {
      config := next;
    }
  }
}
