/** The ban ledger as a state machine over values: the fail cache, the three tables and the set of
    IPs every bouncer is blocking.  `BanManager.dfy` holds the code; its methods are proved to
    compute exactly these steps. */
module Ledger {
  import opened Options
  import opened Int64
  import opened Tables

  // `core.control` of the configuration, and the whitelist as the predicate it decides.
  datatype Config = Config(banPeriod: int, banIncrement: int, whitelisted: Ip -> bool)

  // What `log` asks of the watcher it is called for.
  datatype Source = Source(bouncer: BouncerName, limit: int)

  // `live` maps each loaded bouncer to the IPs it blocks.
  datatype World = World(db: Store, cache: map<Ip, IPInfo>, live: map<BouncerName, set<Ip>>, reloaded: bool)

  /** What one iteration of `log` decides to do with one IP. */
  datatype Verdict =
    | Ignored
    | Reban
    | Ban(record: IPInfo)
    | Strike(record: IPInfo)
    | Throws

  function BanDuration(cfg: Config, banCount: nat): (d: Option<int>)
    ensures d.Some? ==> d.value >= 0
  {
    if cfg.banPeriod < 0 then None
    else
      var duration := Wrap64(cfg.banPeriod * CastToInt64(Pow(cfg.banIncrement, banCount)));
      if duration < 0 then None else Some(duration)
  }

  predicate Reached(fails: nat, limit: int) {
    (fails > 0 && limit < 0) || fails >= ToSize(limit)
  }

  function GetIpInfo(w: World, ip: Ip): IPInfo {
    if ip in w.cache then w.cache[ip] else LoadIp(w.db, ip)
  }

  function AddFails(info: IPInfo, now: int, n: nat): (r: IPInfo)
    ensures |r.currFails| == |info.currFails| + n
  {
    info.(currFails := info.currFails[now := info.currFails[now] + n])
  }

  function Banned(cfg: Config, info: IPInfo, bouncer: BouncerName, now: int): IPInfo {
    info.(currFails := multiset{},
          banCount := info.banCount + 1,
          currBans := info.currBans[bouncer := BanInfo(now, BanDuration(cfg, info.banCount), None)])
  }

  function Decide(cfg: Config, loaded: set<BouncerName>, info: IPInfo, src: Source, now: int, ip: Ip, n: nat): Verdict {
    if n == 0 || cfg.whitelisted(ip) then Ignored
    else if src.bouncer in info.currBans then
      if src.bouncer in loaded then Reban else Throws
    else
      var struck := AddFails(info, now, n);
      if !Reached(|struck.currFails|, src.limit) then Strike(struck)
      else if src.bouncer !in loaded then Throws
      else Ban(Banned(cfg, struck, src.bouncer, now))
  }

  function Block(live: map<BouncerName, set<Ip>>, bouncer: BouncerName, ip: Ip): map<BouncerName, set<Ip>>
    requires bouncer in live
  {
    live[bouncer := live[bouncer] + {ip}]
  }

  predicate Applicable(w: World, src: Source, v: Verdict) {
    v.Reban? || v.Ban? ==> src.bouncer in w.live
  }

  function Apply(w: World, src: Source, ip: Ip, v: Verdict): World
    requires Applicable(w, src, v)
  {
    match v
    case Ignored => w
    case Throws => w
    case Reban => w.(live := Block(w.live, src.bouncer, ip))
    case Ban(record) =>
      w.(db := RecordBan(w.db, record),
         cache := w.cache - {record.ip},
         live := Block(w.live, src.bouncer, ip))
    case Strike(record) =>
      w.(db := UpdateIp(w.db, record), cache := w.cache[ip := record])
  }

  function VerdictFor(cfg: Config, w: World, src: Source, now: int, ip: Ip, n: nat): (v: Verdict)
    ensures Applicable(w, src, v)
  {
    Decide(cfg, w.live.Keys, GetIpInfo(w, ip), src, now, ip, n)
  }

  function LogOne(cfg: Config, w: World, src: Source, now: int, ip: Ip, n: nat): World {
    Apply(w, src, ip, VerdictFor(cfg, w, src, now, ip, n))
  }

  function IpsOf(keys: set<(Ip, BouncerName)>, bouncer: BouncerName): (r: set<Ip>)
    ensures forall ip :: ip in r <==> (ip, bouncer) in keys
  {
    set key | key in keys && key.1 == bouncer :: key.0
  }

  function BlockAll(live: map<BouncerName, set<Ip>>, keys: set<(Ip, BouncerName)>): map<BouncerName, set<Ip>> {
    map b | b in live :: live[b] + IpsOf(keys, b)
  }

  function UnblockAll(live: map<BouncerName, set<Ip>>, keys: set<(Ip, BouncerName)>): map<BouncerName, set<Ip>> {
    map b | b in live :: live[b] - IpsOf(keys, b)
  }

  function LoadRebans(w: World, now: int): World {
    w.(live := BlockAll(w.live, RebanKeys(w.db, now)), reloaded := true)
  }

  function Cleanup(w: World, now: int): World {
    var keys := PendingKeys(w.db, now);
    w.(db := w.db.(bans := w.db.bans - keys), live := UnblockAll(w.live, keys))
  }

  /** The daemon stops and starts again with the same configuration: only the tables survive. */
  function Restart(w: World): World {
    World(w.db, map[], map b | b in w.live :: {}, false)
  }

  datatype Step =
    | Log(src: Source, now: int, ip: Ip, n: nat)
    | Rebans(now: int)
    | Unbans(now: int)
    | Restarted

  function Next(cfg: Config, w: World, step: Step): World {
    match step
    case Log(src, now, ip, n) => LogOne(cfg, w, src, now, ip, n)
    case Rebans(now) => LoadRebans(w, now)
    case Unbans(now) => Cleanup(w, now)
    case Restarted => Restart(w)
  }

  function Run(cfg: Config, w: World, steps: seq<Step>): World {
    if steps == [] then w
    else Next(cfg, Run(cfg, w, steps[..|steps| - 1]), steps[|steps| - 1])
  }

  /** The time of the last step that read the clock. */
  function Clock(start: int, steps: seq<Step>): int {
    if steps == [] then start
    else
      var last := steps[|steps| - 1];
      if last.Restarted? then Clock(start, steps[..|steps| - 1]) else last.now
  }

  /** The clock never runs backwards. */
  predicate InOrder(start: int, steps: seq<Step>) {
    steps == [] ||
    var init := steps[..|steps| - 1];
    var last := steps[|steps| - 1];
    InOrder(start, init) && (last.Restarted? || Clock(start, init) <= last.now)
  }
}
