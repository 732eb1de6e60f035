/** What a reload of the backends file makes of its entries. */
module Reload {
  import opened Options
  import opened Rotation
  import opened Backends

  type Ratio = n: nat | n >= 1 witness 1

  /** One entry of the backends file, with its ratio already clamped to at least 1. */
  datatype BackendJson = BackendJson(name: string, ip: string, ratio: Ratio, metric: int)

  datatype Candidate = Candidate(bj: BackendJson, iface: string)

  /** What the host says of addresses: is it IPv4, and which interface carries it ("" for none). */
  datatype Addressing = Addressing(isIPv4: string -> bool, ifaceOf: string -> string)

  /** The empty text is no address. */
  type Host = h: Addressing | !h.isIPv4("") witness Addressing(_ => false, _ => "")

  predicate OnHost(b: BackendJson, host: Host) {
    host.isIPv4(b.ip) && host.ifaceOf(b.ip) != ""
  }

  /** The entries of the file that can be used, skipping the others. */
  function Usable(cfg: seq<BackendJson>, host: Host): (us: seq<Candidate>)
    ensures |us| <= |cfg|
  {
    if cfg == [] then []
    else
      var n := |cfg| - 1;
      Usable(cfg[..n], host) +
      if OnHost(cfg[n], host) then [Candidate(cfg[n], host.ifaceOf(cfg[n].ip))] else []
  }

  lemma UsableNext(cfg: seq<BackendJson>, host: Host, i: nat)
    requires i < |cfg|
    ensures Usable(cfg[..i + 1], host) ==
      Usable(cfg[..i], host) + if OnHost(cfg[i], host) then [Candidate(cfg[i], host.ifaceOf(cfg[i].ip))] else []
  {
    assert cfg[..i + 1][..i] == cfg[..i];
  }

  /** These are the lines of the file that can be used: all of them, each once, in order. */
  ghost predicate UsableLines(cfg: seq<BackendJson>, host: Host, lines: seq<nat>) {
    && (forall i, j :: 0 <= i < j < |lines| ==> lines[i] < lines[j])
    && (forall i :: 0 <= i < |lines| ==> lines[i] < |cfg| && OnHost(cfg[lines[i]], host))
    && (forall k :: 0 <= k < |cfg| && OnHost(cfg[k], host) ==> k in lines)
  }

  ghost predicate TakenFrom(cfg: seq<BackendJson>, host: Host, lines: seq<nat>, us: seq<Candidate>) {
    && UsableLines(cfg, host, lines) && |us| == |lines|
    && forall i :: 0 <= i < |us| ==> us[i] == Candidate(cfg[lines[i]], host.ifaceOf(cfg[lines[i]].ip))
  }

  /** Every entry that can be used is taken, as often as it is in the file and in file order, and no other. */
  lemma {:induction false} UsableIsEveryLine(cfg: seq<BackendJson>, host: Host) returns (lines: seq<nat>)
    ensures TakenFrom(cfg, host, lines, Usable(cfg, host))
    decreases |cfg|
  {
    if cfg == [] {
      lines := [];
    } else {
      var n := |cfg| - 1;
      var front := UsableIsEveryLine(cfg[..n], host);
      lines := front + if OnHost(cfg[n], host) then [n] else [];
      LinesExtend(cfg, host, front, Usable(cfg[..n], host));
    }
  }

  lemma LinesExtend(cfg: seq<BackendJson>, host: Host, front: seq<nat>, us: seq<Candidate>)
    requires cfg != [] && TakenFrom(cfg[..|cfg| - 1], host, front, us)
    ensures var n := |cfg| - 1;
      if OnHost(cfg[n], host)
      then TakenFrom(cfg, host, front + [n], us + [Candidate(cfg[n], host.ifaceOf(cfg[n].ip))])
      else TakenFrom(cfg, host, front + [], us + [])
  {
    hide OnHost;
    var n := |cfg| - 1;
    var lines := front + if OnHost(cfg[n], host) then [n] else [];
    forall k | 0 <= k < |cfg| && OnHost(cfg[k], host) ensures k in lines {
      if k < n { assert cfg[..n][k] == cfg[k] && k in front; }
    }
    assert front + [] == front && us + [] == us;
  }

  /** The addresses of the lines that can be used. */
  ghost predicate IpsOfUsable(cfg: seq<BackendJson>, host: Host, ips: seq<string>) {
    exists lines: seq<nat> :: UsableLines(cfg, host, lines) && |ips| == |lines| &&
      forall i :: 0 <= i < |ips| ==> ips[i] == cfg[lines[i]].ip
  }

  lemma ListsUsable(cfg: seq<BackendJson>, host: Host, ips: seq<string>)
    requires var us := Usable(cfg, host); |ips| == |us| && forall i :: 0 <= i < |us| ==> ips[i] == us[i].bj.ip
    ensures IpsOfUsable(cfg, host, ips)
  {
    var lines := UsableIsEveryLine(cfg, host);
  }

  /** The addresses of a list, in order. */
  function Ips(bs: seq<Backend>): (ips: seq<string>)
    ensures |ips| == |bs| && forall i :: 0 <= i < |bs| ==> ips[i] == bs[i].ip
  {
    seq(|bs|, i requires 0 <= i < |bs| => bs[i].ip)
  }

  /** The addresses listed after a reload of this file. */
  function ReloadedIps(ips: seq<string>, cfg: seq<BackendJson>, host: Host): seq<string> {
    var us := Usable(cfg, host);
    if us == [] then ips else seq(|us|, i requires 0 <= i < |us| => us[i].bj.ip)
  }

  lemma ReloadSetsIps(before: seq<Backend>, after: seq<Backend>, cfg: seq<BackendJson>, host: Host)
    requires var us := Usable(cfg, host);
      if us == [] then after == before
      else |after| == |us| && forall i :: 0 <= i < |us| ==> after[i].ip == us[i].bj.ip
    ensures Ips(after) == ReloadedIps(Ips(before), cfg, host)
  {
  }

  /** The backend of the first k that a reload reuses for this address. */
  function Survivor(bs: seq<Backend>, k: nat, ip: string): (r: Option<Backend>)
    requires k <= |bs|
    ensures r.Some? ==> r.value in bs[..k] && r.value.ip == ip
    ensures r == None ==> forall i :: 0 <= i < k ==> bs[i].ip != ip
  {
    if k == 0 then None
    else if bs[k - 1].ip == ip then Some(bs[k - 1])
    else Survivor(bs, k - 1, ip)
  }

  lemma {:induction false} SurvivorItself(bs: seq<Backend>, k: nat, i: nat)
    requires i < k <= |bs| && forall j :: i < j < k ==> bs[j].ip != bs[i].ip
    ensures Survivor(bs, k, bs[i].ip) == Some(bs[i])
    decreases k
  {
    if i < k - 1 {
      SurvivorItself(bs, k - 1, i);
    }
  }

  /** Re-applying a list of distinct addresses gives back the very same objects, in order. */
  lemma {:induction false} ReapplyIsIdentity(before: seq<Backend>, after: seq<Backend>)
    requires |after| == |before|
    requires forall i :: 0 <= i < |before| ==> after[i].ip == before[i].ip
    requires forall i, j :: 0 <= i < j < |before| ==> before[i].ip != before[j].ip
    requires forall i :: 0 <= i < |after| && Survivor(before, |before|, after[i].ip).Some? ==>
      after[i] == Survivor(before, |before|, after[i].ip).value
    ensures after == before
  {
    forall i | 0 <= i < |before| ensures after[i] == before[i] {
      SurvivorItself(before, |before|, i);
    }
  }

  /** No later candidate, among the first k, has the same address. */
  predicate LastOf(us: seq<Candidate>, i: nat, k: nat)
    requires i < k <= |us|
  {
    forall j :: i < j < k ==> us[j].bj.ip != us[i].bj.ip
  }

  lemma LastOfNext(us: seq<Candidate>, k: nat)
    requires k < |us|
    ensures forall i :: 0 <= i < k && LastOf(us, i, k + 1) ==> LastOf(us, i, k) && us[i].bj.ip != us[k].bj.ip
  {
  }

  /** The last entry with the address of entry i. */
  function LastSame(us: seq<Candidate>, i: nat, k: nat): (r: nat)
    requires i < k <= |us|
    ensures i <= r < k && us[r].bj.ip == us[i].bj.ip && LastOf(us, r, k)
    decreases k
  {
    if us[k - 1].bj.ip == us[i].bj.ip then k - 1 else LastSame(us, i, k - 1)
  }

  /**
   Whose settings the backend of entry i ends up with: a surviving object is written by every
   entry with its address, so by the last; a new one only by its own.
   */
  function SettingsOf(us: seq<Candidate>, i: nat, survives: bool): Candidate
    requires i < |us|
  {
    if survives then us[LastSame(us, i, |us|)] else us[i]
  }

  lemma OwnSettings(us: seq<Candidate>)
    requires forall i, j :: 0 <= i < j < |us| ==> us[i].bj.ip != us[j].bj.ip
    ensures forall i, survives :: 0 <= i < |us| ==> SettingsOf(us, i, survives) == us[i]
  {
    forall i | 0 <= i < |us| ensures LastSame(us, i, |us|) == i {
    }
  }

  /** The last of the first k positions that has this address. */
  function LastAt(ips: seq<string>, k: nat, ip: string): (r: Option<nat>)
    requires k <= |ips|
    ensures r.Some? ==> r.value < k && ips[r.value] == ip
  {
    if k == 0 then None else if ips[k - 1] == ip then Some(k - 1) else LastAt(ips, k - 1, ip)
  }

  lemma {:induction false} SurvivorAt(bs: seq<Backend>, k: nat, ip: string)
    requires k <= |bs|
    ensures Survivor(bs, k, ip) ==
      match LastAt(Ips(bs), k, ip) case None => None case Some(j) => Some(bs[j])
  {
    if k > 0 { SurvivorAt(bs, k - 1, ip); }
  }

  /** What selection sees of a backend with these settings. */
  function WanOf(u: Candidate, up: bool): Wan {
    Wan(if u.bj.name == "" then u.bj.ip else u.bj.name, up, u.bj.metric, u.bj.ratio)
  }

  /** What selection sees after a reload: the settings of the file, the health of survivors, others UP. */
  function ReloadedWans(ips: seq<string>, ws: seq<Wan>, cfg: seq<BackendJson>, host: Host): (r: seq<Wan>)
    requires |ips| == |ws|
    ensures |r| == |Usable(cfg, host)|
  {
    var us := Usable(cfg, host);
    seq(|us|, i requires 0 <= i < |us| =>
      match LastAt(ips, |ips|, us[i].bj.ip)
      case Some(k) => WanOf(SettingsOf(us, i, true), ws[k].up)
      case None => WanOf(SettingsOf(us, i, false), true))
  }

  /** Which positions are one object. */
  ghost function Twins(bs: seq<Backend>): (same: set<(nat, nat)>)
    ensures forall i: nat, j: nat :: (i, j) in same <==> i < |bs| && j < |bs| && bs[i] == bs[j]
  {
    set i: nat, j: nat | i < |bs| && j < |bs| && bs[i] == bs[j] :: (i, j)
  }

  /** After a reload several positions are one object where they name one surviving address. */
  ghost function ReloadedTwins(ips: seq<string>, cfg: seq<BackendJson>, host: Host): set<(nat, nat)> {
    var us := Usable(cfg, host);
    set i: nat, j: nat |
      i < |us| && j < |us| && (i == j || (us[i].bj.ip == us[j].bj.ip && us[i].bj.ip in ips)) :: (i, j)
  }

  /** Free to stand anywhere in a list whose cursor is at 0. */
  ghost predicate Ready(b: Backend)
    reads b
  {
    b.credit == 0 && b.ratio >= 1
  }

  /** As a new backend starts: UP, and never used. */
  ghost predicate Pristine(b: Backend)
    reads b
  {
    b.up && b.checksOk == b.checksFailed == 0 && b.totalConns == 0 && b.activeConns == 0
  }

  ghost predicate Configured(b: Backend, u: Candidate)
    reads b
  {
    && b.name == (if u.bj.name == "" then u.bj.ip else u.bj.name)
    && b.iface == u.iface && b.ratio == u.bj.ratio && b.metric == u.bj.metric
    && b.credit == 0
  }

  /** How the list after a reload comes from the one before, given the usable entries. */
  ghost predicate Reborn(before: seq<Backend>, after: seq<Backend>, us: seq<Candidate>)
    reads after
  {
    && |after| == |us|
    && (forall i :: 0 <= i < |us| ==>
          && after[i].ip == us[i].bj.ip
          && match Survivor(before, |before|, us[i].bj.ip)
             case Some(b) => after[i] == b && Configured(after[i], SettingsOf(us, i, true))
             case None => Pristine(after[i]) && Configured(after[i], SettingsOf(us, i, false)))
    && (forall i, j :: 0 <= i < j < |us| && after[i] == after[j] ==> Survivor(before, |before|, us[i].bj.ip).Some?)
  }

  lemma ReloadedViews(before: seq<Backend>, after: seq<Backend>, ws: seq<Wan>, cfg: seq<BackendJson>, host: Host)
    requires Reborn(before, after, Usable(cfg, host)) && |ws| == |before|
    requires forall k :: 0 <= k < |ws| ==> before[k].up == ws[k].up
    ensures forall i :: 0 <= i < |after| ==> after[i].View() == ReloadedWans(Ips(before), ws, cfg, host)[i]
  {
    hide Survivor, LastAt, SettingsOf, Usable;
    forall i | 0 <= i < |after| ensures after[i].View() == ReloadedWans(Ips(before), ws, cfg, host)[i] {
      SurvivorAt(before, |before|, after[i].ip);
    }
  }

  lemma ReloadedAsTwins(before: seq<Backend>, after: seq<Backend>, cfg: seq<BackendJson>, host: Host)
    requires Reborn(before, after, Usable(cfg, host))
    ensures Twins(after) == ReloadedTwins(Ips(before), cfg, host)
  {
    hide SettingsOf, Usable, Configured, Pristine, Survivor;
    var us := Usable(cfg, host);
    forall i, j | 0 <= i < |us| && 0 <= j < |us|
      ensures after[i] == after[j] <==> i == j || (us[i].bj.ip == us[j].bj.ip && us[i].bj.ip in Ips(before))
    {
      SurvivorListed(before, us[i].bj.ip);
    }
  }

  lemma RebornIps(before: seq<Backend>, after: seq<Backend>, us: seq<Candidate>)
    requires Reborn(before, after, us)
    ensures |after| == |us| && forall i :: 0 <= i < |us| ==> after[i].ip == us[i].bj.ip
  {
  }

  lemma SurvivorListed(bs: seq<Backend>, ip: string)
    ensures Survivor(bs, |bs|, ip).Some? <==> ip in Ips(bs)
  {
    if ip in Ips(bs) { var i :| 0 <= i < |bs| && Ips(bs)[i] == ip; }
  }
}
