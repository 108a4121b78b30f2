/** The three persistent relations behind `BanDB`, as values: their rows, the effect of every SQL
    statement on them, and what one IP's rows look like. */
module Tables {
  import opened Options

  datatype Ip = Ip(text: string)

  datatype BouncerName = BouncerName(text: string)

  // `std::optional<int64_t>`: None is SQL NULL, a ban that never ends.
  datatype BanInfo = BanInfo(banStarted: int, banDuration: Option<int>, port: Option<nat>)

  // `currFails` is a multiset: SQL returns the rows in no promised order and nothing reads the order.
  datatype IPInfo = IPInfo(ip: Ip, currFails: multiset<int>, banCount: nat, currBans: map<BouncerName, BanInfo>)

  datatype BanLocation = BanLocation(ip: Ip, bouncer: BouncerName, port: Option<nat>)

  /** IPRegistry (primary key IP), FailRegistry (UNIQUE(IP, Time)), BanRegistry (UNIQUE(IP, Bouncer)). */
  datatype Store = Store(counts: map<Ip, nat>, fails: set<(Ip, int)>, bans: map<(Ip, BouncerName), BanInfo>)

  const EMPTY := Store(map[], {}, map[])

  function CountOf(s: Store, ip: Ip): nat {
    if ip in s.counts then s.counts[ip] else 0
  }

  function FailTimes(s: Store, ip: Ip): (r: set<int>)
    ensures forall t :: t in r <==> (ip, t) in s.fails
  {
    set row | row in s.fails && row.0 == ip :: row.1
  }

  function BansOf(s: Store, ip: Ip): (r: map<BouncerName, BanInfo>)
    ensures forall b :: b in r <==> (ip, b) in s.bans
    ensures forall b :: b in r ==> r[b] == s.bans[(ip, b)]
  {
    var bouncers := set key | key in s.bans && key.0 == ip :: key.1;
    assert forall b :: b in bouncers <==> (ip, b) in s.bans;
    map b | b in bouncers :: s.bans[(ip, b)]
  }

  function LoadIp(s: Store, ip: Ip): IPInfo {
    IPInfo(ip, multiset(FailTimes(s, ip)), CountOf(s, ip), BansOf(s, ip))
  }

  function Times(fails: multiset<int>): set<int> {
    set t | t in fails
  }

  function FailRows(ip: Ip, times: multiset<int>): (r: set<(Ip, int)>)
    ensures forall i, t :: (i, t) in r <==> i == ip && t in times
  {
    set t | t in times :: (ip, t)
  }

  function BanRows(ip: Ip, bans: map<BouncerName, BanInfo>): (r: map<(Ip, BouncerName), BanInfo>)
    ensures forall i, b :: (i, b) in r <==> i == ip && b in bans
    ensures forall b :: b in bans ==> r[(ip, b)] == bans[b]
  {
    var keys := set b | b in bans :: (ip, b);
    map key | key in keys :: bans[key.1]
  }

  function UpdateIp(s: Store, info: IPInfo): Store {
    Store(s.counts[info.ip := info.banCount],
          s.fails + FailRows(info.ip, info.currFails),
          s.bans + BanRows(info.ip, info.currBans))
  }

  function WipeFailsFor(s: Store, ip: Ip): Store {
    s.(fails := set row | row in s.fails && row.0 != ip)
  }

  /** The two writes of a ban: the fails go, then the record is stored. */
  function RecordBan(s: Store, info: IPInfo): Store {
    UpdateIp(WipeFailsFor(s, info.ip), info)
  }

  /** WHERE BanDuration >= 0 AND (BanStarted + BanDuration) <= now.  A NULL duration makes the clause
      unknown, so the row is not selected. */
  predicate Pending(row: BanInfo, now: int) {
    row.banDuration.Some? && row.banDuration.value >= 0 && row.banStarted + row.banDuration.value <= now
  }

  /** WHERE (BanDuration >= 0 AND (BanStarted + BanDuration) > now) OR BanDuration IS NULL. */
  predicate StillBanned(row: BanInfo, now: int) {
    (row.banDuration.Some? && row.banDuration.value >= 0 && row.banStarted + row.banDuration.value > now)
    || row.banDuration.None?
  }

  function PendingKeys(s: Store, now: int): set<(Ip, BouncerName)> {
    set key | key in s.bans && Pending(s.bans[key], now)
  }

  function RebanKeys(s: Store, now: int): set<(Ip, BouncerName)> {
    set key | key in s.bans && StillBanned(s.bans[key], now)
  }

  // ----- One IP's rows after each write -----

  lemma UpdateIpFails(s: Store, info: IPInfo, ip: Ip)
    ensures FailTimes(UpdateIp(s, info), ip)
            == if ip == info.ip then FailTimes(s, ip) + Times(info.currFails) else FailTimes(s, ip)
  {
    var rows := FailRows(info.ip, info.currFails);
    assert forall t :: (ip, t) in s.fails + rows <==> (ip, t) in s.fails || (ip, t) in rows;
  }

  lemma UpdateIpBan(s: Store, info: IPInfo, ip: Ip, b: BouncerName)
    ensures var bans := UpdateIp(s, info).bans;
      if ip == info.ip && b in info.currBans then
        (ip, b) in bans && bans[(ip, b)] == info.currBans[b]
      else
        ((ip, b) in bans <==> (ip, b) in s.bans) && ((ip, b) in bans ==> bans[(ip, b)] == s.bans[(ip, b)])
  {
    var rows := BanRows(info.ip, info.currBans);
    assert (ip, b) in rows <==> ip == info.ip && b in info.currBans;
  }

  lemma SameMap(left: map<BouncerName, BanInfo>, right: map<BouncerName, BanInfo>)
    requires forall b :: (b in left <==> b in right) && (b in left ==> left[b] == right[b])
    ensures left == right
  {
    assert left.Keys == right.Keys;
  }

  lemma BansOfUpdated(before: Store, after: Store, ip: Ip, bans: map<BouncerName, BanInfo>)
    requires forall b :: (ip, b) in after.bans <==> (ip, b) in before.bans || b in bans
    requires forall b :: (ip, b) in after.bans ==>
      after.bans[(ip, b)] == if b in bans then bans[b] else before.bans[(ip, b)]
    ensures BansOf(after, ip) == BansOf(before, ip) + bans
  {
    SameMap(BansOf(after, ip), BansOf(before, ip) + bans);
  }

  lemma UpdateIpBans(s: Store, info: IPInfo, ip: Ip)
    ensures BansOf(UpdateIp(s, info), ip)
            == if ip == info.ip then BansOf(s, ip) + info.currBans else BansOf(s, ip)
  {
    forall b {
      UpdateIpBan(s, info, ip, b);
    }
    if ip == info.ip {
      BansOfUpdated(s, UpdateIp(s, info), ip, info.currBans);
    } else {
      SameMap(BansOf(UpdateIp(s, info), ip), BansOf(s, ip));
    }
  }

  lemma WipeFailsView(s: Store, wiped: Ip, ip: Ip)
    ensures FailTimes(WipeFailsFor(s, wiped), ip) == if ip == wiped then {} else FailTimes(s, ip)
    ensures BansOf(WipeFailsFor(s, wiped), ip) == BansOf(s, ip)
  {
    SameMap(BansOf(WipeFailsFor(s, wiped), ip), BansOf(s, ip));
  }

  lemma RecordBanCounts(s: Store, info: IPInfo, ip: Ip)
    ensures CountOf(RecordBan(s, info), ip) == if ip == info.ip then info.banCount else CountOf(s, ip)
  {
  }

  lemma RecordBanFails(s: Store, info: IPInfo, ip: Ip)
    ensures FailTimes(RecordBan(s, info), ip) == if ip == info.ip then Times(info.currFails) else FailTimes(s, ip)
  {
    WipeFailsView(s, info.ip, ip);
    UpdateIpFails(WipeFailsFor(s, info.ip), info, ip);
  }

  lemma RecordBanBans(s: Store, info: IPInfo, ip: Ip)
    ensures BansOf(RecordBan(s, info), ip)
            == if ip == info.ip then BansOf(s, ip) + info.currBans else BansOf(s, ip)
  {
    WipeFailsView(s, info.ip, ip);
    UpdateIpBans(WipeFailsFor(s, info.ip), info, ip);
  }

  lemma SameSetSameMultiset(a: set<int>, b: set<int>)
    ensures multiset(a) == multiset(b) <==> a == b
  {
    if multiset(a) == multiset(b) {
      assert forall t :: t in a <==> t in multiset(a);
      assert forall t :: t in b <==> t in multiset(b);
    }
  }

  lemma OverwriteKeeps(m: map<BouncerName, BanInfo>, n: map<BouncerName, BanInfo>)
    ensures m + n == n <==> m.Keys <= n.Keys
  {
    assert (m + n).Keys == m.Keys + n.Keys;
  }

  /** Reading back what was written: the next load returns the record, with repeated fail times
      collapsed by UNIQUE(IP, Time), exactly when the record keeps every fail time and every bouncer
      the store already had for the IP.  Nothing else moves. */
  lemma UpdateThenLoad(s: Store, info: IPInfo)
    ensures LoadIp(UpdateIp(s, info), info.ip) == info.(currFails := multiset(Times(info.currFails)))
            <==> FailTimes(s, info.ip) <= Times(info.currFails) && BansOf(s, info.ip).Keys <= info.currBans.Keys
    ensures forall other :: other != info.ip ==> LoadIp(UpdateIp(s, info), other) == LoadIp(s, other)
  {
    UpdateIpFails(s, info, info.ip);
    UpdateIpBans(s, info, info.ip);
    var times := Times(info.currFails);
    SameSetSameMultiset(FailTimes(s, info.ip) + times, times);
    assert FailTimes(s, info.ip) + times == times <==> FailTimes(s, info.ip) <= times;
    OverwriteKeeps(BansOf(s, info.ip), info.currBans);
    forall other | other != info.ip ensures LoadIp(UpdateIp(s, info), other) == LoadIp(s, other) {
      UpdateIpFails(s, info, other);
      UpdateIpBans(s, info, other);
    }
  }

  /** The two maintenance queries split BanRegistry, exactly when no stored duration is negative: a
      negative duration is selected by neither. */
  lemma QueriesPartition(s: Store, now: int)
    ensures PendingKeys(s, now) !! RebanKeys(s, now)
    ensures PendingKeys(s, now) + RebanKeys(s, now) == s.bans.Keys
            <==> forall key :: key in s.bans && s.bans[key].banDuration.Some? ==> s.bans[key].banDuration.value >= 0
  {
    if PendingKeys(s, now) + RebanKeys(s, now) == s.bans.Keys {
      forall key | key in s.bans && s.bans[key].banDuration.Some?
        ensures s.bans[key].banDuration.value >= 0
      {
        assert key in PendingKeys(s, now) + RebanKeys(s, now);
      }
    }
  }

  /** Once a ban is due it stays due, and a ban without a duration is never due. */
  lemma PendingStaysPending(s: Store, now: int, later: int)
    requires now <= later
    ensures PendingKeys(s, now) <= PendingKeys(s, later)
    ensures RebanKeys(s, later) <= RebanKeys(s, now)
    ensures forall key :: key in s.bans && s.bans[key].banDuration.None? ==> key !in PendingKeys(s, later)
  {
  }
}
