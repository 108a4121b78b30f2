/** What `log` does with one report, case by case, for a bouncer that is loaded and for one that is
    not. */
module LedgerCases {
  import opened Options
  import opened Int64
  import opened Tables
  import opened Ledger
  import opened LedgerView
  import opened LedgerAgreement
  import StrikePool

  /** `info` is the cached record, or else one made of the IP's rows. */
  ghost predicate Knows(w: World, ip: Ip, info: IPInfo) {
    if ip in w.cache then info == w.cache[ip]
    else
      && info.ip == ip
      && info.banCount == (if ip in w.db.counts then w.db.counts[ip] else 0)
      && (forall t :: info.currFails[t] == if (ip, t) in w.db.fails then 1 else 0)
      && (forall b :: b in info.currBans <==> (ip, b) in w.db.bans)
      && (forall b :: b in info.currBans ==> info.currBans[b] == w.db.bans[(ip, b)])
  }

  lemma InfoKnown(w: World, ip: Ip)
    ensures Knows(w, ip, GetIpInfo(w, ip))
  {
  }

  /** The share of a banned IP: not cached, no fails, one ban more, a row from `now` on, and blocked. */
  predicate BannedShare(cfg: Config, before: View, info: IPInfo, bouncer: BouncerName, now: int, after: View) {
    && after.cached == None
    && after.fails == {}
    && after.count == info.banCount + 1
    && after.bans == before.bans + info.currBans[bouncer := BanInfo(now, BanDuration(cfg, info.banCount), None)]
    && after.live == before.live + {bouncer}
  }

  /** The share of an IP below the limit: `n` fails more at `now`, in the cache and as one row. */
  ghost predicate StruckShare(before: View, info: IPInfo, now: int, n: nat, after: View) {
    && after.cached.Some?
    && (forall t :: after.cached.value.currFails[t] == info.currFails[t] + if t == now then n else 0)
    && after.cached.value == info.(currFails := after.cached.value.currFails)
    && after.fails == before.fails + Times(info.currFails) + {now}
    && after.count == info.banCount
    && after.bans == before.bans + info.currBans
    && after.live == before.live
  }

  /** Nothing happens without messages or to a whitelisted IP.  An IP whose record names the bouncer is
      blocked again; another is struck below the limit and banned from it on.  Blocking takes the
      bouncer: if it is not loaded, `log` throws just there and has changed nothing. */
  ghost predicate Dealt(cfg: Config, w: World, src: Source, now: int, ip: Ip, n: nat, info: IPInfo, w': World, threw: bool) {
    var named, due := src.bouncer in info.currBans, |info.currFails| + n >= src.limit;
    var v, v' := ViewOf(w, ip), ViewOf(w', ip);
    if n == 0 || cfg.whitelisted(ip) then !threw && w' == w
    else if named || due then
      if src.bouncer !in w.live then threw && w' == w
      else if named then !threw && w'.db == w.db && w'.cache == w.cache && v'.live == v.live + {src.bouncer}
      else !threw && BannedShare(cfg, v, info, src.bouncer, now, v')
    else !threw && StruckShare(v, info, now, n, v')
  }

  /** The other IPs' shares are left alone. */
  ghost predicate OthersKept(w: World, ip: Ip, w': World) {
    && w'.live.Keys == w.live.Keys
    && w'.reloaded == w.reloaded
    && forall other :: other != ip ==> ViewOf(w', other) == ViewOf(w, other)
  }

  lemma StruckAs(v: View, src: Source, info: IPInfo, now: int, n: nat)
    requires n > 0
    ensures StruckShare(v, info, now, n, ApplyView(v, src, Strike(AddFails(info, now, n))))
  {
    TimesOfStruck(info, now, n);
  }

  lemma BannedAs(cfg: Config, v: View, info: IPInfo, bouncer: BouncerName, limit: int, now: int, n: nat)
    ensures var record := Banned(cfg, AddFails(info, now, n), bouncer, now);
      BannedShare(cfg, v, info, bouncer, now, ApplyView(v, Source(bouncer, limit), Ban(record)))
  {
  }

  lemma OthersLeft(cfg: Config, w: World, src: Source, now: int, ip: Ip, n: nat)
    requires Filed(w)
    ensures OthersKept(w, ip, LogOne(cfg, w, src, now, ip, n))
  {
    LogOneViews(cfg, w, src, now, ip, n, ip);
    forall other | other != ip ensures ViewOf(LogOne(cfg, w, src, now, ip, n), other) == ViewOf(w, other) {
      LogOneViews(cfg, w, src, now, ip, n, other);
    }
  }

  lemma DecidedAs(cfg: Config, w: World, src: Source, now: int, ip: Ip, n: nat, info: IPInfo, d: Verdict, w': World)
    requires src.limit >= -TWO_63 && d == Decide(cfg, w.live.Keys, info, src, now, ip, n)
    requires ViewOf(w', ip) == ApplyView(ViewOf(w, ip), src, d)
    requires d.Ignored? || d.Throws? ==> w' == w
    requires d.Reban? ==> w'.db == w.db && w'.cache == w.cache
    ensures Dealt(cfg, w, src, now, ip, n, info, w', d.Throws?)
  {
    var v := ViewOf(w, ip);
    if n > 0 {
      StrikePool.ReachedMeans(|info.currFails| + n, src.limit);
      StruckAs(v, src, info, now, n);
      BannedAs(cfg, v, info, src.bouncer, src.limit, now, n);
    }
  }

  /** One iteration of `log`, whatever bouncers are loaded, for every limit an `int` can hold. */
  lemma LogDeals(cfg: Config, w: World, src: Source, now: int, ip: Ip, n: nat)
    requires Filed(w) && src.limit >= -TWO_63
    ensures var info, w' := GetIpInfo(w, ip), LogOne(cfg, w, src, now, ip, n);
      && Knows(w, ip, info)
      && Dealt(cfg, w, src, now, ip, n, info, w', VerdictFor(cfg, w, src, now, ip, n).Throws?)
      && OthersKept(w, ip, w')
  {
    var info, w' := GetIpInfo(w, ip), LogOne(cfg, w, src, now, ip, n);
    InfoKnown(w, ip);
    InfoInView(w, ip);
    LogOneViews(cfg, w, src, now, ip, n, ip);
    DecidedAs(cfg, w, src, now, ip, n, info, VerdictFor(cfg, w, src, now, ip, n), w');
    OthersLeft(cfg, w, src, now, ip, n);
  }
}
