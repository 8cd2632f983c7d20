/**
 * The logrus hook of package `serverhook` (`hook.go`, `option.go`): a
 * hook bound to a log type and a server URL, configured by options, that
 * turns logrus entries into server entries and throttles the errors it
 * prints. Delivery over HTTP is outside the model.
 */
module ServerHooks {
  import opened Wrappers
  import opened Collaborators
  import opened Strings
  import Levels

  /** `BufSize`: the capacity of the entry channel of an asynchronous hook. */
  const BufSize: nat := 8192

  const EmptyTypeError: string := "empty log type"
  const EmptyUrlError: string := "empty url"
  const SendFailure: string := "Failed to send log to server: "

  /** The four options of `option.go`. */
  datatype HookOption =
    | WithSecret(secret: string)
    | KeepColors(keep: bool)
    | SuppressErrors(suppress: bool)
    | Synchronous(synchronous: bool)

  /** The fields of a hook that options set. */
  datatype Settings = Settings(secret: string, keepColors: bool, suppressErrors: bool, synchronous: bool)

  /** The zero values a new hook starts from. */
  const Defaults: Settings := Settings("", false, false, false)

  /** What one option sets. */
  function Apply(s: Settings, o: HookOption): Settings {
    match o
    case WithSecret(v) => s.(secret := v)
    case KeepColors(v) => s.(keepColors := v)
    case SuppressErrors(v) => s.(suppressErrors := v)
    case Synchronous(v) => s.(synchronous := v)
  }

  /** The options applied in argument order. */
  function ApplyAll(s: Settings, opts: seq<HookOption>): Settings
    decreases |opts|
  {
    if opts == [] then s else ApplyAll(Apply(s, opts[0]), opts[1..])
  }

  /** The field an option sets. */
  datatype Field = SecretField | KeepColorsField | SuppressErrorsField | SynchronousField

  function FieldOf(o: HookOption): Field {
    match o
    case WithSecret(_) => SecretField
    case KeepColors(_) => KeepColorsField
    case SuppressErrors(_) => SuppressErrorsField
    case Synchronous(_) => SynchronousField
  }

  /** The value of a field, as the option for it would carry it. */
  function Get(s: Settings, f: Field): HookOption {
    match f
    case SecretField => WithSecret(s.secret)
    case KeepColorsField => KeepColors(s.keepColors)
    case SuppressErrorsField => SuppressErrors(s.suppressErrors)
    case SynchronousField => Synchronous(s.synchronous)
  }

  lemma ApplyAllSnoc(s: Settings, opts: seq<HookOption>, o: HookOption)
    ensures ApplyAll(s, opts + [o]) == Apply(ApplyAll(s, opts), o)
    decreases |opts|
  {
    if opts != [] {
      assert (opts + [o])[1..] == opts[1..] + [o];
      ApplyAllSnoc(Apply(s, opts[0]), opts[1..], o);
    }
  }

  /** A field no option names keeps its value. */
  lemma {:induction false} Untouched(s: Settings, opts: seq<HookOption>, f: Field)
    requires forall i :: 0 <= i < |opts| ==> FieldOf(opts[i]) != f
    ensures Get(ApplyAll(s, opts), f) == Get(s, f)
    decreases |opts|
  {
    if opts != [] {
      assert forall i :: 0 <= i < |opts[1..]| ==> opts[1..][i] == opts[i + 1];
      Untouched(Apply(s, opts[0]), opts[1..], f);
    }
  }

  /** The last option for a field decides it: later options override earlier ones. */
  lemma LastOptionWins(s: Settings, opts: seq<HookOption>, i: nat)
    requires i < |opts|
    requires forall j :: i < j < |opts| ==> FieldOf(opts[j]) != FieldOf(opts[i])
    ensures Get(ApplyAll(s, opts), FieldOf(opts[i])) == opts[i]
  {
    var f := FieldOf(opts[i]);
    var rest := opts[i + 1..];
    ApplyAllSplit(s, opts[..i + 1], rest);
    assert opts[..i + 1] + rest == opts;
    ApplyAllSnoc(s, opts[..i], opts[i]);
    assert opts[..i] + [opts[i]] == opts[..i + 1];
    assert forall j :: 0 <= j < |rest| ==> rest[j] == opts[i + 1 + j];
    Untouched(ApplyAll(s, opts[..i + 1]), rest, f);
  }

  lemma {:induction false} ApplyAllSplit(s: Settings, a: seq<HookOption>, b: seq<HookOption>)
    ensures ApplyAll(s, a + b) == ApplyAll(ApplyAll(s, a), b)
    decreases |a|
  {
    if a == [] {
      assert a + b == b;
    } else {
      assert (a + b)[1..] == a[1..] + b;
      ApplyAllSplit(Apply(s, a[0]), a[1..], b);
    }
  }

  /**
   * The `Level` a logrus level maps to (`logrus.PanicLevel` is 0, then
   * Fatal, Error, Warn, Info, Debug, Trace): Panic and Fatal both become
   * `LevelFatal`; an unknown level leaves the zero `Level`.
   */
  function MapLevel(l: int): (r: Levels.Level)
    ensures 0 <= l <= 6 <==> Levels.IsKnown(r)
    ensures r == Levels.Fatal <==> l == 0 || l == 1
  {
    if l == 0 || l == 1 then Levels.Fatal
    else if l == 2 then Levels.Error
    else if l == 3 then Levels.Warn
    else if l == 4 then Levels.Info
    else if l == 5 then Levels.Debug
    else if l == 6 then Levels.Trace
    else 0
  }

  /**
   * The mapping reverses the order: logrus counts from the most severe
   * level, `Level` from the least; apart from Panic and Fatal, different
   * logrus levels stay different.
   */
  lemma MapLevelReversesOrder(a: int, b: int)
    requires 1 <= a <= 6 && 1 <= b <= 6
    ensures a <= b <==> MapLevel(a) >= MapLevel(b)
    ensures MapLevel(a) == MapLevel(b) ==> a == b
  {
  }

  /** The opaque string functions of the hook: `removeColors` and `quoteIfNeeded`. */
  datatype HookExternals = HookExternals(removeColors: string -> string, quote: string -> string)

  /** `appendKeyValue` after a space: `" " + key + "=" + value`. */
  function KeyValue(key: string, value: string): string {
    " " + key + "=" + value
  }

  /** The text one key adds: `KeyValue` with its quoted value, if the key is present. */
  function Pair(k: string, data: map<string, string>, hx: HookExternals): string {
    if k in data then KeyValue(k, hx.quote(data[k])) else ""
  }

  /** `Pair` for each of `keys`, in that order. */
  function DataText(keys: seq<string>, data: map<string, string>, hx: HookExternals): string
    decreases |keys|
  {
    if keys == [] then ""
    else Pair(keys[0], data, hx) + DataText(keys[1..], data, hx)
  }

  lemma {:induction false} DataTextSnoc(keys: seq<string>, k: string, data: map<string, string>, hx: HookExternals)
    ensures DataText(keys + [k], data, hx) == DataText(keys, data, hx) + Pair(k, data, hx)
    decreases |keys|
  {
    if keys == [] {
      assert [k][1..] == [];
    } else {
      assert (keys + [k])[1..] == keys[1..] + [k];
      DataTextSnoc(keys[1..], k, data, hx);
    }
  }

  lemma DataTextStep(keys: seq<string>, i: nat, data: map<string, string>, hx: HookExternals)
    requires i < |keys|
    ensures DataText(keys[..i + 1], data, hx) == DataText(keys[..i], data, hx) + Pair(keys[i], data, hx)
  {
    assert keys[..i + 1] == keys[..i] + [keys[i]];
    DataTextSnoc(keys[..i], keys[i], data, hx);
  }

  /** Without fields, the message is left as it is. */
  lemma NoDataNoText(data: map<string, string>, hx: HookExternals)
    requires data == map[]
    ensures DataText(SortedOf(data.Keys), data, hx) == ""
  {
    assert data.Keys == {};
  }

  lemma AppendAssoc(x: string, y: string, z: string)
    ensures x + y + z == x + (y + z)
  {
  }

  /** The loop of `appendData`: each key's pair, in the order of `keys`. */
  method WritePairs(b: string, keys: seq<string>, data: map<string, string>, hx: HookExternals) returns (r: string)
    ensures r == b + DataText(keys, data, hx)
  {
    r := b;
    var i := 0;
    while i < |keys|
      invariant 0 <= i <= |keys|
      invariant r == b + DataText(keys[..i], data, hx)
    {
      var k := keys[i];
      DataTextStep(keys, i, data, hx);
      AppendAssoc(b, DataText(keys[..i], data, hx), Pair(k, data, hx));
      if k in data {
        r := r + KeyValue(k, hx.quote(data[k]));
      } else {
        assert r + Pair(k, data, hx) == r;
      }
      i := i + 1;
    }
    assert keys[..i] == keys;
  }

  /**
   * `appendData`: the keys of `data`, collected and sorted, each written
   * after `b` as a space, the key, `=` and its quoted value. The values are
   * the ones `fmt.Sprint` gives (or the string itself).
   */
  method AppendData(b: string, data: map<string, string>, hx: HookExternals) returns (r: string)
    ensures r == b + DataText(SortedOf(data.Keys), data, hx)
  {
    var keys := SortedKeys(data);
    r := WritePairs(b, keys, data, hx);
  }

  /** `serverLogEntry`: what the hook sends to the log server. */
  datatype ServerLogEntry = ServerLogEntry(kind: string, level: Levels.Level, date: string, message: string, secret: string)

  /** A logrus entry: level, message, fields (rendered as strings) and time. */
  datatype Entry = Entry(level: int, message: string, data: map<string, string>, time: string)

  class ServerHook {
    const typ: string
    const url: string
    var secret: string
    var keepColors: bool
    var suppressErrors: bool
    var synchronous: bool
    /** The capacity of `buf`, when it has been made. */
    var buf: Option<nat>
    var workerRunning: bool
    /** `nextError`, as a clock reading; the zero time is 0. */
    var nextError: int

    constructor(typ: string, url: string)
      ensures this.typ == typ && this.url == url && Current() == Defaults
      ensures buf == None && !workerRunning && nextError == 0
    {
      this.typ, this.url := typ, url;
      secret, keepColors, suppressErrors, synchronous := "", false, false, false;
      buf, workerRunning, nextError := None, false, 0;
    }

    function Current(): Settings
      reads this
    {
      Settings(secret, keepColors, suppressErrors, synchronous)
    }

    /** `secretOption.apply`. */
    method ApplySecret(v: string)
      modifies this
      ensures secret == v
      ensures keepColors == old(keepColors) && suppressErrors == old(suppressErrors) && synchronous == old(synchronous)
      ensures buf == old(buf) && workerRunning == old(workerRunning) && nextError == old(nextError)
    {
      secret := v;
    }

    /** `keepColorOption.apply`. */
    method ApplyKeepColors(v: bool)
      modifies this
      ensures keepColors == v
      ensures secret == old(secret) && suppressErrors == old(suppressErrors) && synchronous == old(synchronous)
      ensures buf == old(buf) && workerRunning == old(workerRunning) && nextError == old(nextError)
    {
      keepColors := v;
    }

    /** `suppressErrorOption.apply`. */
    method ApplySuppressErrors(v: bool)
      modifies this
      ensures suppressErrors == v
      ensures secret == old(secret) && keepColors == old(keepColors) && synchronous == old(synchronous)
      ensures buf == old(buf) && workerRunning == old(workerRunning) && nextError == old(nextError)
    {
      suppressErrors := v;
    }

    /** `synchronousOption.apply`. */
    method ApplySynchronous(v: bool)
      modifies this
      ensures synchronous == v
      ensures secret == old(secret) && keepColors == old(keepColors) && suppressErrors == old(suppressErrors)
      ensures buf == old(buf) && workerRunning == old(workerRunning) && nextError == old(nextError)
    {
      synchronous := v;
    }

    /** `o.apply(h)`, dispatched on the option's type. */
    method ApplyOption(o: HookOption)
      modifies this
      ensures Current() == Apply(old(Current()), o)
      ensures buf == old(buf) && workerRunning == old(workerRunning) && nextError == old(nextError)
    {
      match o {
        case WithSecret(v) => ApplySecret(v);
        case KeepColors(v) => ApplyKeepColors(v);
        case SuppressErrors(v) => ApplySuppressErrors(v);
        case Synchronous(v) => ApplySynchronous(v);
      }
    }

    /**
     * `createServerEntry`: the mapped level, the message followed by the
     * sorted fields, colours removed unless kept, and the hook's type and
     * secret.
     */
    method CreateServerEntry(entry: Entry, hx: HookExternals) returns (e: ServerLogEntry)
      ensures e.kind == typ && e.secret == secret && e.date == entry.time && e.level == MapLevel(entry.level)
      ensures var text := entry.message + DataText(SortedOf(entry.data.Keys), entry.data, hx);
        e.message == if keepColors then text else hx.removeColors(text)
    {
      var lvl := MapLevel(entry.level);
      var msg := AppendData(entry.message, entry.data, hx);
      if !keepColors {
        msg := hx.removeColors(msg);
      }
      e := ServerLogEntry(typ, lvl, entry.time, msg, secret);
    }

    /**
     * `showError`: unless errors are suppressed, print the error if
     * `nextError` has passed, and hold further errors back for ten
     * minutes.
     */
    method ShowError(err: string, now: int, stdout: Writer)
      modifies this, stdout
      ensures Current() == old(Current()) && buf == old(buf) && workerRunning == old(workerRunning)
      ensures !suppressErrors && old(nextError) < now ==>
        nextError == now + ErrorWindow && stdout.written == old(stdout.written) + [SendFailure + err]
      ensures suppressErrors || now <= old(nextError) ==>
        nextError == old(nextError) && stdout.written == old(stdout.written)
    {
      if !suppressErrors && nextError < now {
        stdout.Write(SendFailure + err);
        nextError := now + ErrorWindow;
      }
    }
  }

  /**
   * `NewServerHook`: an empty type is refused first, then an empty URL;
   * otherwise the options are applied in order, and an asynchronous hook
   * gets its channel of `BufSize` entries and its worker.
   */
  method NewServerHook(typ: string, url: string, options: seq<HookOption>) returns (h: ServerHook?, err: Option<string>)
    ensures typ == "" ==> h == null && err == Some(EmptyTypeError)
    ensures typ != "" && url == "" ==> h == null && err == Some(EmptyUrlError)
    ensures typ != "" && url != "" ==>
      && err == None && h != null && fresh(h)
      && h.typ == typ && h.url == url && h.Current() == ApplyAll(Defaults, options)
      && h.buf == (if h.synchronous then None else Some(BufSize))
      && h.workerRunning == !h.synchronous
      && h.nextError == 0
  {
    if typ == "" {
      return null, Some(EmptyTypeError);
    }
    if url == "" {
      return null, Some(EmptyUrlError);
    }
    var hook := new ServerHook(typ, url);
    var i := 0;
    while i < |options|
      invariant 0 <= i <= |options|
      invariant hook.typ == typ && hook.url == url
      invariant hook.Current() == ApplyAll(Defaults, options[..i])
      invariant hook.buf == None && !hook.workerRunning && hook.nextError == 0
    {
      ApplyAllSnoc(Defaults, options[..i], options[i]);
      assert options[..i + 1] == options[..i] + [options[i]];
      hook.ApplyOption(options[i]);
      i := i + 1;
    }
    assert options[..i] == options;
    if !hook.synchronous {
      hook.buf := Some(BufSize);
      hook.workerRunning := true;
    }
    return hook, None;
  }
}
