/** The consistency check and outputs of the admin tool (admin/src/configure.rs):
    `check_objects` over the VLAN, object, user and password tables, the
    sorted audit file it leads to, and the reconciliation of the live
    user-file directory against the manifest.

    Rust `HashMap`s the check iterates are association lists in iteration
    order; the three nested loops over users, their devices and each
    device's MACs are walked as one sequence of steps in that order. The
    results are shown not to depend on the order. */
module Configure {
  import opened Wrappers
  import opened Strings
  import opened Sorting

  const MabMode := "mab"
  const LoginMode := "login"
  const OwnMode := "owned"
  /** The VLAN column of an audit line for an owned device. */
  const NoVlan := "n/a"

  datatype Vlan = Vlan(initiate: seq<string>)

  /** A MAC's assignment: its mode and VLAN. */
  datatype Assignment = Assignment(mode: string, vlan: string)

  /** A device; `macs` is its MAC map in iteration order. */
  datatype Device = Device(name: string, base: string, macs: seq<(string, Assignment)>)

  datatype User = User(defaultVlan: string, devices: seq<Device>)

  datatype Audit = Audit(user: string, vlan: string, mac: string)
  datatype Whitelist = Whitelist(user: string, mac: string)
  datatype Eap = Eap(user: string, pass: string, vlan: int, md5: bool)
  datatype SysInfo = SysInfo(id: string, make: string, model: string, objType: string, systemType: string, user: string)

  datatype Manifest = Manifest(audit: seq<Audit>, whitelist: seq<Whitelist>, eapUsers: seq<Eap>, sysInfo: seq<SysInfo>)

  // ---------------------------------------------------------------------
  // Concatenated mapping, and why its result depends only on the multiset
  // of its input

  function FlatMap<A, B>(f: A -> seq<B>, s: seq<A>): seq<B> {
    if |s| == 0 then [] else f(s[0]) + FlatMap(f, s[1..])
  }

  lemma {:induction false} FlatMapConcat<A, B>(f: A -> seq<B>, a: seq<A>, b: seq<A>)
    ensures FlatMap(f, a + b) == FlatMap(f, a) + FlatMap(f, b)
    decreases |a|
  {
    if |a| == 0 {
      assert a + b == b;
    } else {
      assert (a + b)[0] == a[0] && (a + b)[1..] == a[1..] + b;
      FlatMapConcat(f, a[1..], b);
    }
  }

  /** Mapping two orderings of the same elements gives two orderings of the
      same results. */
  lemma {:induction false} FlatMapPermutation<A, B>(f: A -> seq<B>, a: seq<A>, b: seq<A>)
    requires multiset(a) == multiset(b)
    ensures multiset(FlatMap(f, a)) == multiset(FlatMap(f, b))
    decreases |a|
  {
    assert |a| == |multiset(a)| == |multiset(b)| == |b|;
    if |a| > 0 {
      var x := a[0];
      assert x in multiset(b);
      var k :| 0 <= k < |b| && b[k] == x;
      var b' := b[..k] + b[k + 1..];
      assert b == b[..k] + [x] + b[k + 1..];
      assert a == [x] + a[1..];
      assert multiset(b') == multiset(b) - multiset{x};
      FlatMapPermutation(f, a[1..], b');
      FlatMapConcat(f, b[..k] + [x], b[k + 1..]);
      FlatMapConcat(f, b[..k], [x]);
      FlatMapConcat(f, b[..k], b[k + 1..]);
      assert FlatMap(f, [x]) == f(x) + FlatMap(f, []);
    }
  }

  // ---------------------------------------------------------------------
  // The walk

  /** One visit of the nested loops: a user, one of its devices, or one MAC
      of a device. */
  datatype Step =
    | UserStep(u: string, defaultVlan: string)
    | DeviceStep(u: string, base: string)
    | MacStep(u: string, mac: string, a: Assignment)

  function MacSteps(u: string, macs: seq<(string, Assignment)>): (w: seq<Step>)
    ensures |w| == |macs|
  {
    seq(|macs|, i requires 0 <= i < |macs| => MacStep(u, macs[i].0, macs[i].1))
  }

  function DeviceWalk(u: string, d: Device): seq<Step> {
    [DeviceStep(u, d.base)] + MacSteps(u, d.macs)
  }

  function UserWalk(e: (string, User)): seq<Step> {
    [UserStep(e.0, e.1.defaultVlan)] + FlatMap((d: Device) => DeviceWalk(e.0, d), e.1.devices)
  }

  /** The order in which `check_objects` visits users, devices and MACs. */
  function Walk(users: seq<(string, User)>): seq<Step> {
    FlatMap(UserWalk, users)
  }

  // ---------------------------------------------------------------------
  // The check

  /** The VLAN column for an assignment: its VLAN in `mab` and `login` mode,
      "n/a" when `owned`, and nothing for any other mode. */
  function AuditVlan(a: Assignment): (r: Option<string>)
    ensures r.Some? <==> a.mode in {MabMode, LoginMode, OwnMode}
    ensures a.mode == OwnMode ==> r == Some(NoVlan)
    ensures a.mode == MabMode || a.mode == LoginMode ==> r == Some(a.vlan)
  {
    if a.mode == MabMode then Some(a.vlan)
    else if a.mode == LoginMode then Some(a.vlan)
    else if a.mode == OwnMode then Some(NoVlan)
    else None
  }

  /** Every VLAN's `initiate` list names VLANs only. */
  predicate InitiatesKnown(vlans: map<string, Vlan>) {
    forall v, i :: v in vlans && i in vlans[v].initiate ==> i in vlans
  }

  /** The walk from the current step on, given the MAC modes seen so far:
      `None` at the first failed check, otherwise the audit entries of the
      visited MACs in visit order. */
  function Scan(steps: seq<Step>, vlans: map<string, Vlan>, objects: set<string>, passes: set<string>,
                tracked: map<string, string>): Option<seq<Audit>>
    decreases |steps|
  {
    if |steps| == 0 then Some([])
    else
      match steps[0]
      case UserStep(u, defaultVlan) =>
        if defaultVlan !in vlans then None
        else if u !in passes then None
        else Scan(steps[1..], vlans, objects, passes, tracked)
      case DeviceStep(_, base) =>
        if base !in objects then None
        else Scan(steps[1..], vlans, objects, passes, tracked)
      case MacStep(u, mac, a) =>
        match AuditVlan(a)
        case None => None
        case Some(vlan) =>
          if mac in tracked && a.mode != tracked[mac] then None
          else
            var tracked' := if mac in tracked then tracked else tracked[mac := a.mode];
            match Scan(steps[1..], vlans, objects, passes, tracked')
            case None => None
            case Some(rest) => Some([Audit(u, vlan, mac)] + rest)
  }

  /** What a single visit checks. */
  predicate StepOk(s: Step, vlans: map<string, Vlan>, objects: set<string>, passes: set<string>) {
    match s
    case UserStep(u, defaultVlan) => defaultVlan in vlans && u in passes
    case DeviceStep(_, base) => base in objects
    case MacStep(_, _, a) => AuditVlan(a).Some?
  }

  predicate StepsOk(steps: seq<Step>, vlans: map<string, Vlan>, objects: set<string>, passes: set<string>) {
    forall s :: s in steps ==> StepOk(s, vlans, objects, passes)
  }

  /** Every visit of a MAC already in `tracked` has the tracked mode. */
  predicate Agrees(tracked: map<string, string>, steps: seq<Step>) {
    forall s :: s in steps && s.MacStep? && s.mac in tracked ==> tracked[s.mac] == s.a.mode
  }

  /** No MAC is visited with two different modes. */
  predicate ModesConsistent(steps: seq<Step>) {
    forall s, t :: s in steps && t in steps && s.MacStep? && t.MacStep? && s.mac == t.mac ==> s.a.mode == t.a.mode
  }

  /** The audit entry of a visit (MAC visits with a known mode only). */
  function StepAudit(s: Step): seq<Audit> {
    if s.MacStep? && AuditVlan(s.a).Some? then [Audit(s.u, AuditVlan(s.a).value, s.mac)] else []
  }

  function AuditsOf(steps: seq<Step>): seq<Audit> {
    FlatMap(StepAudit, steps)
  }

  /** Peeling one MAC visit off the walk: agreement with the tracked modes
      and consistency hold for the walk exactly when the first visit agrees
      and the rest agrees with the tracked modes extended by it. */
  lemma AgreesStep(tracked: map<string, string>, steps: seq<Step>)
    requires |steps| > 0 && steps[0].MacStep?
    ensures var s := steps[0];
            var tracked' := if s.mac in tracked then tracked else tracked[s.mac := s.a.mode];
            (Agrees(tracked, steps) && ModesConsistent(steps))
            <==> ((s.mac in tracked ==> tracked[s.mac] == s.a.mode)
                  && Agrees(tracked', steps[1..]) && ModesConsistent(steps[1..]))
  {
    var s := steps[0];
    var tracked' := if s.mac in tracked then tracked else tracked[s.mac := s.a.mode];
    assert steps == [s] + steps[1..];
    if (s.mac in tracked ==> tracked[s.mac] == s.a.mode) && Agrees(tracked', steps[1..]) && ModesConsistent(steps[1..]) {
      forall x, y | x in steps && y in steps && x.MacStep? && y.MacStep? && x.mac == y.mac
        ensures x.a.mode == y.a.mode
      {
        if x == s && y != s {
          assert y in steps[1..];
        } else if y == s && x != s {
          assert x in steps[1..];
        }
      }
    }
  }

  /** A user or device visit touches no MAC: peeling it off changes
      neither agreement nor consistency. */
  lemma NonMacStep(tracked: map<string, string>, steps: seq<Step>, vlans: map<string, Vlan>,
                   objects: set<string>, passes: set<string>)
    requires |steps| > 0 && !steps[0].MacStep?
    ensures Agrees(tracked, steps) == Agrees(tracked, steps[1..])
    ensures ModesConsistent(steps) == ModesConsistent(steps[1..])
  {
    assert steps == [steps[0]] + steps[1..];
    assert forall s :: s in steps <==> s == steps[0] || s in steps[1..];
  }

  /** Every visit passes its check exactly when the first does and all the
      others do. */
  lemma StepsOkSplit(steps: seq<Step>, vlans: map<string, Vlan>, objects: set<string>, passes: set<string>)
    requires |steps| > 0
    ensures StepsOk(steps, vlans, objects, passes)
            == (StepOk(steps[0], vlans, objects, passes) && StepsOk(steps[1..], vlans, objects, passes))
  {
    assert steps == [steps[0]] + steps[1..];
    assert forall s :: s in steps <==> s == steps[0] || s in steps[1..];
  }

  /** The walk succeeds from a tracked state exactly when every visit's
      check passes, every MAC agrees with its tracked mode, and no MAC is
      visited with two modes; the audits are then one per MAC visit, in
      visit order. */
  lemma {:induction false} ScanSpec(steps: seq<Step>, vlans: map<string, Vlan>, objects: set<string>,
                                    passes: set<string>, tracked: map<string, string>)
    ensures Scan(steps, vlans, objects, passes, tracked).Some?
            <==> StepsOk(steps, vlans, objects, passes) && Agrees(tracked, steps) && ModesConsistent(steps)
    ensures Scan(steps, vlans, objects, passes, tracked).Some? ==>
              Scan(steps, vlans, objects, passes, tracked).value == AuditsOf(steps)
    decreases |steps|
  {
    if |steps| > 0 {
      var s := steps[0];
      var rest := steps[1..];
      assert steps == [s] + rest;
      assert AuditsOf(steps) == StepAudit(s) + AuditsOf(rest);
      StepsOkSplit(steps, vlans, objects, passes);
      match s
      case UserStep(_, _) =>
        ScanSpec(rest, vlans, objects, passes, tracked);
        NonMacStep(tracked, steps, vlans, objects, passes);
      case DeviceStep(_, _) =>
        ScanSpec(rest, vlans, objects, passes, tracked);
        NonMacStep(tracked, steps, vlans, objects, passes);
      case MacStep(u, mac, a) =>
        var tracked' := if mac in tracked then tracked else tracked[mac := a.mode];
        ScanSpec(rest, vlans, objects, passes, tracked');
        AgreesStep(tracked, steps);
    }
  }

  /** The whole configuration is consistent: VLAN initiates are VLANs, every
      visit passes its check, and every MAC has one mode everywhere. */
  predicate Valid(vlans: map<string, Vlan>, objects: set<string>, users: seq<(string, User)>, passes: set<string>) {
    && InitiatesKnown(vlans)
    && StepsOk(Walk(users), vlans, objects, passes)
    && ModesConsistent(Walk(users))
  }

  /** `check_objects`: a manifest exactly when the configuration is
      consistent, holding one audit entry per visited MAC and nothing
      else. */
  function CheckObjects(vlans: map<string, Vlan>, objects: set<string>, users: seq<(string, User)>,
                        passes: set<string>): (r: Option<Manifest>)
    ensures r.Some? <==> Valid(vlans, objects, users, passes)
    ensures r.Some? ==> r.value == Manifest(AuditsOf(Walk(users)), [], [], [])
  {
    if !InitiatesKnown(vlans) then None
    else
      ScanSpec(Walk(users), vlans, objects, passes, map[]);
      match Scan(Walk(users), vlans, objects, passes, map[])
      case None => None
      case Some(audit) => Some(Manifest(audit, [], [], []))
  }

  /** Validity depends only on which visits happen, not their order (so
      neither the order of users nor of a device's MACs matters). */
  lemma ValidityIgnoresOrder(w1: seq<Step>, w2: seq<Step>, vlans: map<string, Vlan>, objects: set<string>,
                             passes: set<string>)
    requires multiset(w1) == multiset(w2)
    ensures StepsOk(w1, vlans, objects, passes) == StepsOk(w2, vlans, objects, passes)
    ensures ModesConsistent(w1) == ModesConsistent(w2)
  {
    assert forall s :: s in w1 <==> s in multiset(w1);
    assert forall s :: s in w2 <==> s in multiset(w2);
  }

  /** A MAC used in two modes is rejected whatever order the maps are
      iterated in. */
  lemma ModeConflictRejected(vlans: map<string, Vlan>, objects: set<string>, users: seq<(string, User)>,
                             passes: set<string>, s: Step, t: Step)
    requires s in Walk(users) && t in Walk(users)
    requires s.MacStep? && t.MacStep? && s.mac == t.mac && s.a.mode != t.a.mode
    ensures CheckObjects(vlans, objects, users, passes).None?
  {
  }

  // ---------------------------------------------------------------------
  // The audit file

  /** `user,vlan,mac` and a line break. */
  function AuditLine(a: Audit): string {
    a.user + "," + a.vlan + "," + a.mac + "\n"
  }

  function AuditLines(audit: seq<Audit>): seq<string> {
    FlatMap((a: Audit) => [AuditLine(a)], audit)
  }

  /** `Manifest::audits`: the audit lines in sorted order. */
  function AuditFile(m: Manifest): (lines: seq<string>)
    ensures Sorted(lines)
    ensures multiset(lines) == multiset(AuditLines(m.audit))
  {
    Sort(AuditLines(m.audit))
  }

  /** The written audit file is the same for any order of the users. */
  lemma AuditFileIgnoresOrder(vlans: map<string, Vlan>, objects: set<string>, users1: seq<(string, User)>,
                              users2: seq<(string, User)>, passes: set<string>)
    requires multiset(users1) == multiset(users2)
    ensures CheckObjects(vlans, objects, users1, passes).Some? == CheckObjects(vlans, objects, users2, passes).Some?
    ensures CheckObjects(vlans, objects, users1, passes).Some? ==>
              AuditFile(CheckObjects(vlans, objects, users1, passes).value)
              == AuditFile(CheckObjects(vlans, objects, users2, passes).value)
  {
    FlatMapPermutation(UserWalk, users1, users2);
    ValidityIgnoresOrder(Walk(users1), Walk(users2), vlans, objects, passes);
    FlatMapPermutation(StepAudit, Walk(users1), Walk(users2));
    FlatMapPermutation((a: Audit) => [AuditLine(a)], AuditsOf(Walk(users1)), AuditsOf(Walk(users2)));
    SortIgnoresOrder(AuditLines(AuditsOf(Walk(users1))), AuditLines(AuditsOf(Walk(users2))));
  }

  // ---------------------------------------------------------------------
  // Reconciling the live user files

  /** The user-file names a manifest lists: its non-blank lines. */
  function ManifestNames(contents: string): set<string> {
    set l | l in Split(contents, '\n') && l != ""
  }

  /** The names a list holds. */
  function Names(s: seq<string>): set<string> {
    set u | u in s
  }

  /** The first loop of the reconciliation: the manifest's non-blank lines,
      in order. */
  method NamedUsers(contents: string) returns (newUsers: seq<string>)
    ensures Names(newUsers) == ManifestNames(contents)
    ensures "" !in newUsers
  {
    var baseUsers := Split(contents, '\n');
    newUsers := [];
    for i := 0 to |baseUsers|
      invariant forall u :: u in newUsers <==> u in baseUsers[..i] && u != ""
    {
      if baseUsers[i] == "" {
        continue;
      }
      newUsers := newUsers + [baseUsers[i]];
    }
    assert baseUsers[..|baseUsers|] == baseUsers;
  }

  /** The second loop: drop every current file the list does not name. */
  method DropUnnamed(current: set<string>, newUsers: seq<string>) returns (files: set<string>, removed: set<string>)
    ensures files == current * Names(newUsers)
    ensures removed == current - Names(newUsers)
  {
    ghost var named := Names(newUsers);
    files := current;
    removed := {};
    var pending := current;
    while pending != {}
      invariant pending <= current
      invariant removed == (current - pending) - named
      invariant files == current - removed
      decreases |pending|
    {
      var u :| u in pending;
      assert u in newUsers <==> u in named;
      if u !in newUsers {
        removed := removed + {u};
        files := files - {u};
      }
      pending := pending - {u};
    }
  }

  /** The names a path joined under a directory always resolves to an
      existing entry for: the directory itself and its parent. A directory
      listing never holds them. */
  const SelfAndParent: set<string> := {".", ".."}

  /** The third loop: create every listed file that does not exist yet. A
      line "." or ".." joins to the users directory or its parent, which
      exist, so nothing is written for it. */
  method CreateMissing(files: set<string>, newUsers: seq<string>) returns (after: set<string>, created: set<string>)
    requires "" !in newUsers
    ensures after == files + (Names(newUsers) - SelfAndParent)
    ensures created == Names(newUsers) - files - SelfAndParent
  {
    after := files;
    created := {};
    for i := 0 to |newUsers|
      invariant after == files + (Names(newUsers[..i]) - SelfAndParent)
      invariant created == Names(newUsers[..i]) - files - SelfAndParent
    {
      var u := newUsers[i];
      assert newUsers[..i + 1] == newUsers[..i] + [u];
      if u == "" {
        continue;
      }
      if u !in after && u !in SelfAndParent {
        after := after + {u};
        created := created + {u};
      }
    }
    assert newUsers[..|newUsers|] == newUsers;
  }

  /** The reconciliation of `update`: drop every current user file the
      manifest does not name, then create every named file that is missing.
      On a directory listing (which never holds "." or "..") the directory
      afterwards holds exactly the named files other than "." and "..". */
  method Reconcile(contents: string, current: set<string>)
    returns (files: set<string>, removed: set<string>, created: set<string>)
    ensures files == (current * ManifestNames(contents)) + (ManifestNames(contents) - SelfAndParent)
    ensures removed == current - ManifestNames(contents)
    ensures created == ManifestNames(contents) - current - SelfAndParent
    ensures current !! SelfAndParent ==> files == ManifestNames(contents) - SelfAndParent
  {
    var newUsers := NamedUsers(contents);
    var kept;
    kept, removed := DropUnnamed(current, newUsers);
    files, created := CreateMissing(kept, newUsers);
  }

  /** A manifest whose one line is "." names the users directory itself:
      the line is listed, yet nothing is created for it. */
  lemma DotLineCreatesNothing(current: set<string>)
    ensures ManifestNames(".") == {"."}
    ensures ManifestNames(".") - current - SelfAndParent == {}
  {
    SplitNoSeparator(".", '\n');
    assert Split(".", '\n') == ["."];
  }
}
