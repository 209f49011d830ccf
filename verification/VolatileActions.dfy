/**
  The volatile one-shot action store of src/chronicle.cpp: tokens grouped into
  previews ("confirm" and "cancel" of one draft), claimed, finished, released,
  expired and evicted under one mutex.

  The class updates a map in place, one method per mutex section.  `Step` is the
  same store as a transition system; the theorems about whole runs are at the end.
 */
module VolatileActions {

  import opened Wrappers

  // ----------------------------------------------------------------- data

  datatype Entry = Entry(
    entryId: string, status: nat, revision: nat,
    title: string, body: string, sourceText: string,
    participants: seq<nat>, tags: seq<string>, attachments: seq<nat>)

  datatype Result = Result(
    code: nat, entry: Option<Entry>,
    becameCanon: bool, wakeOutbox: bool, wakeScheduler: bool, draftCancelled: bool)

  /** Who pressed the button, and where.  Zero is an unset snowflake. */
  datatype Scope = Scope(guild: nat, channel: nat, user: nat)

  datatype Action = Action(
    kind: nat, scope: Scope, expiresAt: int,
    memory: Option<string>, item: Option<string>, group: string)

  datatype RecordState = Active | InProgress | Completed
  datatype Record = Record(action: Action, state: RecordState, result: Option<Result>)
  type Store = map<string, Record>

  /** What a finished token may still replay: nothing of the private prose. */
  function Trimmed(r: Result): Result {
    match r.entry
    case None => r
    case Some(e) => r.(entry := Some(Entry(e.entryId, e.status, e.revision, "", "", "", [], [], [])))
  }

  predicate NoProse(r: Result) {
    r.entry.Some? ==>
      var e := r.entry.value;
      e.title == "" && e.body == "" && e.sourceText == ""
      && e.participants == [] && e.tags == [] && e.attachments == []
  }

  // ---------------------------------------------------------------- tokens

  predicate LowercaseHex(c: char) { '0' <= c <= '9' || 'a' <= c <= 'f' }

  predicate ValidUuidV4(s: string) {
    && |s| == 36
    && s[8] == '-' && s[13] == '-' && s[18] == '-' && s[23] == '-'
    && s[14] == '4' && s[19] in {'8', '9', 'a', 'b'}
    && forall i :: 0 <= i < 36 && i !in {8, 13, 18, 23} ==> LowercaseHex(s[i])
  }

  /** std::string's operator<. */
  predicate Less(a: string, b: string) {
    b != [] && (a == [] || a[0] < b[0] || (a[0] == b[0] && Less(a[1..], b[1..])))
  }

  lemma {:induction false} LessIsStrict(a: string, b: string)
    ensures !(Less(a, b) && Less(b, a)) && !Less(a, a)
    ensures a != b ==> Less(a, b) || Less(b, a)
  {
    if a != [] && b != [] {
      LessIsStrict(a[1..], b[1..]);
      assert a == [a[0]] + a[1..] && b == [b[0]] + b[1..];
    } else if a != [] {
      LessIsStrict(a[1..], a[1..]);
    }
  }

  /** Less at the first place where the two differ, or a proper prefix. */
  ghost predicate LexicographicAt(a: string, b: string, k: nat) {
    k <= |a| && k < |b| && a[..k] == b[..k] && (k == |a| || a[k] < b[k])
  }

  lemma {:induction false} LessIsLexicographic(a: string, b: string)
    ensures Less(a, b) <==> exists k: nat :: LexicographicAt(a, b, k)
  {
    if a == [] || b == [] || a[0] != b[0] {
      if Less(a, b) {
        assert LexicographicAt(a, b, 0);
      }
      if k: nat :| LexicographicAt(a, b, k) {
        assert k > 0 ==> a[..k][0] == b[..k][0];
      }
    } else {
      LessIsLexicographic(a[1..], b[1..]);
      assert a == [a[0]] + a[1..] && b == [b[0]] + b[1..];
      if k: nat :| LexicographicAt(a[1..], b[1..], k) {
        assert a[..k + 1] == [a[0]] + a[1..][..k] && b[..k + 1] == [b[0]] + b[1..][..k];
        assert LexicographicAt(a, b, k + 1);
      }
      if k: nat :| LexicographicAt(a, b, k) {
        assert k > 0;
        assert a[1..][..k - 1] == a[..k][1..] && b[1..][..k - 1] == b[..k][1..];
        assert LexicographicAt(a[1..], b[1..], k - 1);
      }
    }
  }

  lemma {:induction false} LessIsTransitive(a: string, b: string, c: string)
    requires Less(a, b) && Less(b, c)
    ensures Less(a, c)
  {
    if a != [] && a[0] == b[0] && b[0] == c[0] {
      LessIsTransitive(a[1..], b[1..], c[1..]);
    }
  }

  // ------------------------------------------------------- expiry and scope

  predicate Expirable(r: Record, now: int) { r.state != InProgress && r.action.expiresAt <= now }

  function Purged(m: Store, now: int): Store { map t | t in m && !Expirable(m[t], now) :: m[t] }

  function WithoutGroup(m: Store, group: string): Store {
    map t | t in m && m[t].action.group != group :: m[t]
  }

  /** `cancel_group`: every member goes except one being worked on. */
  function CancelledGroup(m: Store, group: string): Store {
    map t | t in m && !(m[t].action.group == group && m[t].state != InProgress) :: m[t]
  }

  // ----------------------------------------------------------------- claim

  datatype Claim =
    | Claimed(action: Action)
    | AlreadyCompleted(result: Option<Result>)
    | BusyClaim
    | ExpiredClaim
    | Unavailable

  predicate SiblingBusy(m: Store, token: string, group: string) {
    exists u :: u in m && u != token && m[u].action.group == group && m[u].state == InProgress
  }

  lemma PurgeKeepsSiblings(m: Store, token: string, group: string, now: int)
    ensures SiblingBusy(Purged(m, now), token, group) == SiblingBusy(m, token, group)
  {
    if u :| u in m && u != token && m[u].action.group == group && m[u].state == InProgress {
      assert u in Purged(m, now);
    }
  }

  function ClaimOutcome(m: Store, token: string, scope: Scope, now: int): Claim {
    if token !in m || m[token].action.scope != scope then Unavailable
    else if m[token].state == InProgress then BusyClaim
    else if m[token].action.expiresAt <= now then ExpiredClaim
    else if m[token].state == Completed then AlreadyCompleted(m[token].result)
    else if SiblingBusy(m, token, m[token].action.group) then BusyClaim
    else Claimed(m[token].action)
  }

  function StoreAfterClaim(m: Store, token: string, scope: Scope, now: int): Store {
    var purged := Purged(m, now);
    if ClaimOutcome(m, token, scope, now).Claimed? && token in purged
    then purged[token := purged[token].(state := InProgress)]
    else purged
  }

  // ---------------------------------------------------- finish and release

  predicate MayFinish(m: Store, token: string) { token in m && m[token].state == InProgress }

  function Finished(m: Store, token: string, r: Result): Store
    requires MayFinish(m, token)
  {
    var done := m[token].action.(memory := None, item := None);
    WithoutGroup(m, done.group)[token := Record(done, Completed, Some(Trimmed(r)))]
  }

  function Released(m: Store, token: string): Store {
    if MayFinish(m, token) then m[token := m[token].(state := Active)] else m
  }

  // -------------------------------------------------------------- eviction

  predicate GroupBusy(m: Store, group: string) {
    exists u :: u in m && m[u].action.group == group && m[u].state == InProgress
  }

  /** A token whose group may be thrown out to make room for `group`. */
  predicate Evictable(m: Store, group: string, t: string) {
    t in m && m[t].action.group != group && !GroupBusy(m, m[t].action.group)
  }

  predicate Before(m: Store, t: string, u: string)
    requires t in m && u in m
  {
    m[t].action.expiresAt < m[u].action.expiresAt
    || (m[t].action.expiresAt == m[u].action.expiresAt && Less(t, u))
  }

  lemma BeforeIsStrictOrder(m: Store, t: string, u: string, v: string)
    requires t in m && u in m && v in m
    ensures !(Before(m, t, u) && Before(m, u, t))
    ensures t != u ==> Before(m, t, u) || Before(m, u, t)
    ensures Before(m, t, u) && Before(m, u, v) ==> Before(m, t, v)
  {
    LessIsStrict(t, u);
    if Less(t, u) && Less(u, v) {
      LessIsTransitive(t, u, v);
    }
  }

  /** The evictable token with the least (expiry, token) key. */
  ghost predicate IsOldest(m: Store, group: string, t: string) {
    && Evictable(m, group, t)
    && forall u :: Evictable(m, group, u) && u != t ==> Before(m, t, u)
  }

  lemma OldestIsUnique(m: Store, group: string, t: string, u: string)
    requires IsOldest(m, group, t) && IsOldest(m, group, u)
    ensures t == u
  {
    if t != u {
      BeforeIsStrictOrder(m, t, u, t);
    }
  }

  /** The store after evicting these groups, one after another. */
  function AfterEvicting(m: Store, groups: seq<string>): Store {
    if groups == [] then m
    else WithoutGroup(AfterEvicting(m, groups[..|groups| - 1]), groups[|groups| - 1])
  }

  ghost predicate NextVictim(m: Store, group: string, victim: string) {
    exists t :: IsOldest(m, group, t) && m[t].action.group == victim
  }

  /** These groups are evicted in order of their least (expiry, token) key, each
      only because `room` more records did not fit at that moment. */
  ghost predicate EvictionOrder(m: Store, capacity: nat, group: string, room: nat, victims: seq<string>) {
    forall i :: 0 <= i < |victims| ==>
      && NextVictim(AfterEvicting(m, victims[..i]), group, victims[i])
      && |AfterEvicting(m, victims[..i])| + room > capacity
  }

  /** The evictions needed for `room` more records: as few as possible, all of
      them if even that is not enough. */
  ghost predicate Evictions(m: Store, capacity: nat, group: string, room: nat, victims: seq<string>) {
    && EvictionOrder(m, capacity, group, room, victims)
    && var left := AfterEvicting(m, victims);
       |left| + room <= capacity || forall t :: !Evictable(left, group, t)
  }

  // ------------------------------------------------------------- put_group

  datatype PutResult = Stored | InvalidGroup | DuplicateToken | Overflow

  predicate WellFormedAction(a: Action, group: string) {
    && a.group == group && a.scope.guild != 0 && a.scope.channel != 0 && a.scope.user != 0
    && a.expiresAt >= 0
  }

  ghost predicate ValidGroup(actions: seq<(string, Action)>, capacity: nat) {
    && 0 < |actions| <= capacity
    && actions[0].1.group != ""
    && (forall i :: 0 <= i < |actions| ==>
          ValidUuidV4(actions[i].0) && WellFormedAction(actions[i].1, actions[0].1.group))
    && DistinctTokens(actions)
  }

  ghost predicate AnyTokenKnown(m: Store, actions: seq<(string, Action)>) {
    exists i :: 0 <= i < |actions| && actions[i].0 in m
  }

  function NewRecords(actions: seq<(string, Action)>): Store {
    if actions == [] then map[]
    else
      var last := actions[|actions| - 1];
      NewRecords(actions[..|actions| - 1])[last.0 := Record(last.1, Active, None)]
  }

  ghost predicate DistinctTokens(actions: seq<(string, Action)>) {
    forall i, j :: 0 <= i < j < |actions| ==> actions[i].0 != actions[j].0
  }

  lemma {:induction false} NewRecordsAre(actions: seq<(string, Action)>)
    requires DistinctTokens(actions)
    ensures |NewRecords(actions)| == |actions|
    ensures forall t :: t in NewRecords(actions) <==> exists i :: 0 <= i < |actions| && actions[i].0 == t
    ensures forall i :: 0 <= i < |actions| ==>
              actions[i].0 in NewRecords(actions)
              && NewRecords(actions)[actions[i].0] == Record(actions[i].1, Active, None)
  {
    if actions != [] {
      var n := |actions| - 1;
      var init, last := actions[..n], actions[n];
      NewRecordsAre(init);
      var before := NewRecords(init);
      assert NewRecords(actions) == before[last.0 := Record(last.1, Active, None)];
      hide NewRecords;
      assert last.0 !in before;
      forall i | 0 <= i < |actions|
        ensures actions[i].0 in NewRecords(actions)
             && NewRecords(actions)[actions[i].0] == Record(actions[i].1, Active, None)
      {
        if i < n {
          assert actions[i] == init[i];
        }
      }
      forall t | t in NewRecords(actions)
        ensures exists i :: 0 <= i < |actions| && actions[i].0 == t
      {
        if t in before {
          var i :| 0 <= i < n && init[i].0 == t;
          assert actions[i].0 == t;
        } else {
          assert actions[n].0 == t;
        }
      }
    }
  }

  /** Everything that `put_group` may do to the store. */
  ghost predicate PutEffect(m: Store, capacity: nat, actions: seq<(string, Action)>, r: PutResult, m': Store) {
    if !ValidGroup(actions, capacity) then r == InvalidGroup && m' == m
    else if AnyTokenKnown(m, actions) then r == DuplicateToken && m' == m
    else
      exists victims ::
        && Evictions(m, capacity, actions[0].1.group, |actions|, victims)
        && var left := AfterEvicting(m, victims);
           if |left| + |actions| <= capacity
           then r == Stored && m' == left + NewRecords(actions)
           else r == Overflow && m' == left
  }

  // ------------------------------------------------------------- the class

  class VolatileChronicleActions {
    const capacity: nat
    var actions: Store

    /** The source throws invalid_argument for a zero capacity. */
    constructor (capacity: nat)
      requires capacity > 0
      ensures this.capacity == capacity && actions == map[]
    {
      this.capacity := capacity;
      actions := map[];
    }

    method PurgeExpired(now: int)
      modifies this
      ensures actions == Purged(old(actions), now)
    {
      actions := map t | t in actions && !Expirable(actions[t], now) :: actions[t];
    }

    method ClaimToken(token: string, scope: Scope, now: int) returns (claim: Claim)
      modifies this
      ensures claim == ClaimOutcome(old(actions), token, scope, now)
      ensures actions == StoreAfterClaim(old(actions), token, scope, now)
    {
      if token !in actions || actions[token].action.scope.guild != scope.guild
         || actions[token].action.scope.channel != scope.channel
         || actions[token].action.scope.user != scope.user {
        PurgeExpired(now);
        return Unavailable;
      }
      if actions[token].state != InProgress && actions[token].action.expiresAt <= now {
        actions := actions - {token};
        PurgeExpired(now);
        return ExpiredClaim;
      }
      PurgeExpired(now);
      match actions[token].state {
        case Active =>
          PurgeKeepsSiblings(old(actions), token, actions[token].action.group, now);
          if SiblingBusy(actions, token, actions[token].action.group) {
            return BusyClaim;
          }
          actions := actions[token := actions[token].(state := InProgress)];
          return Claimed(actions[token].action);
        case InProgress =>
          return BusyClaim;
        case Completed =>
          return AlreadyCompleted(actions[token].result);
      }
    }

    /** False stands for the logic_error thrown when the token is not in progress. */
    method Finish(token: string, result: Result) returns (ok: bool)
      modifies this
      ensures ok == MayFinish(old(actions), token)
      ensures actions == if ok then Finished(old(actions), token, result) else old(actions)
    {
      if token !in actions || actions[token].state != InProgress {
        return false;
      }
      var group := actions[token].action.group;
      actions := map t | t in actions && !(t != token && actions[t].action.group == group) :: actions[t];
      var record := actions[token];
      record := record.(action := record.action.(memory := None, item := None));
      var trimmed := result;
      if trimmed.entry.Some? {
        var e := trimmed.entry.value;
        trimmed := trimmed.(entry := Some(Entry(e.entryId, e.status, e.revision, "", "", "", [], [], [])));
      }
      actions := actions[token := record.(state := Completed, result := Some(trimmed))];
      return true;
    }

    method Release(token: string)
      modifies this
      ensures actions == Released(old(actions), token)
    {
      if token in actions && actions[token].state == InProgress {
        actions := actions[token := actions[token].(state := Active)];
      }
    }

    method CancelGroup(group: string)
      modifies this
      ensures actions == CancelledGroup(old(actions), group)
    {
      actions := map t | t in actions
                         && !(actions[t].action.group == group && actions[t].state != InProgress) :: actions[t];
    }

    /** The inner scan of `put_group` over the map, whose order is unspecified. */
    method FindOldest(group: string) returns (oldest: Option<string>)
      ensures oldest.Some? ==> IsOldest(actions, group, oldest.value)
      ensures oldest.None? ==> forall t :: !Evictable(actions, group, t)
    {
      oldest := None;
      var rest := actions.Keys;
      while rest != {}
        invariant rest <= actions.Keys
        invariant oldest.Some? ==> Evictable(actions, group, oldest.value) && oldest.value !in rest
        invariant forall u :: Evictable(actions, group, u) && u !in rest ==>
                    oldest.Some? && (u == oldest.value || Before(actions, oldest.value, u))
      {
        var candidate :| candidate in rest;
        rest := rest - {candidate};
        var candidateGroup := actions[candidate].action.group;
        var inProgress := GroupBusy(actions, candidateGroup);
        if candidateGroup == group || inProgress {
          continue;
        }
        if oldest.None? || Before(actions, candidate, oldest.value) {
          forall u | Evictable(actions, group, u) && u !in rest && u != candidate
            ensures Before(actions, candidate, u)
          {
            BeforeIsStrictOrder(actions, candidate, oldest.value, u);
          }
          oldest := Some(candidate);
        } else {
          BeforeIsStrictOrder(actions, candidate, oldest.value, candidate);
        }
      }
    }

    method MakeRoom(group: string, room: nat) returns (fits: bool, ghost victims: seq<string>)
      modifies this
      ensures Evictions(old(actions), capacity, group, room, victims)
      ensures actions == AfterEvicting(old(actions), victims)
      ensures fits == (|actions| + room <= capacity)
    {
      victims := [];
      while |actions| + room > capacity
        invariant EvictionOrder(old(actions), capacity, group, room, victims)
        invariant actions == AfterEvicting(old(actions), victims)
        decreases |actions|
      {
        var oldest := FindOldest(group);
        if oldest.None? {
          return false, victims;
        }
        var evicted := actions[oldest.value].action.group;
        ghost var before, longer := actions, victims + [evicted];
        actions := map t | t in actions && actions[t].action.group != evicted :: actions[t];
        assert longer[..|victims|] == victims;
        assert NextVictim(before, group, evicted);
        forall i | 0 <= i < |longer|
          ensures NextVictim(AfterEvicting(old(actions), longer[..i]), group, longer[i])
          ensures |AfterEvicting(old(actions), longer[..i])| + room > capacity
        {
          if i < |victims| {
            assert longer[..i] == victims[..i];
          }
        }
        Shrinks(before, oldest.value);
        victims := longer;
      }
      return true, victims;
    }

    /** The argument checks of `put_group`, before the lock. */
    method CheckGroup(group: seq<(string, Action)>) returns (ok: bool)
      ensures ok <==> ValidGroup(group, capacity)
    {
      if |group| == 0 || |group| > capacity {
        return false;
      }
      var groupId := group[0].1.group;
      var tokens: set<string> := {};
      for i := 0 to |group|
        invariant i > 0 ==> groupId != ""
        invariant forall t :: t in tokens <==> exists k :: 0 <= k < i && group[k].0 == t
        invariant forall k :: 0 <= k < i ==> ValidUuidV4(group[k].0) && WellFormedAction(group[k].1, groupId)
        invariant forall j, k :: 0 <= j < k < i ==> group[j].0 != group[k].0
      {
        var (token, action) := group[i];
        if !ValidUuidV4(token) || token in tokens || groupId == "" || !WellFormedAction(action, groupId) {
          return false;
        }
        tokens := tokens + {token};
      }
      return true;
    }

    method Insert(group: seq<(string, Action)>)
      modifies this
      ensures actions == old(actions) + NewRecords(group)
    {
      for i := 0 to |group|
        invariant actions == old(actions) + NewRecords(group[..i])
      {
        assert group[..i + 1][..i] == group[..i];
        actions := actions[group[i].0 := Record(group[i].1, Active, None)];
      }
      assert group[..|group|] == group;
    }

    method PutGroup(group: seq<(string, Action)>) returns (r: PutResult)
      modifies this
      ensures PutEffect(old(actions), capacity, group, r, actions)
    {
      hide AfterEvicting, Evictions, NewRecords;
      var ok := CheckGroup(group);
      if !ok {
        return InvalidGroup;
      }
      if exists i :: 0 <= i < |group| && group[i].0 in actions {
        return DuplicateToken;
      }
      var fits, victims := MakeRoom(group[0].1.group, |group|);
      if !fits {
        return Overflow;
      }
      Insert(group);
      return Stored;
    }
  }

  lemma Shrinks(m: Store, t: string)
    requires t in m
    ensures |WithoutGroup(m, m[t].action.group)| < |m|
  {
    var smaller := WithoutGroup(m, m[t].action.group);
    assert smaller.Keys <= m.Keys - {t};
    SubsetIsSmaller(smaller.Keys, m.Keys - {t});
  }

  lemma {:induction false} SubsetIsSmaller<T>(a: set<T>, b: set<T>)
    requires a <= b
    ensures |a| <= |b|
  {
    if a != {} {
      var x :| x in a;
      SubsetIsSmaller(a - {x}, b - {x});
    }
  }

  // ------------------------------------------- what eviction leaves behind

  lemma {:induction false} EvictionRemovesWholeGroups(m: Store, groups: seq<string>)
    ensures AfterEvicting(m, groups) == map t | t in m && m[t].action.group !in groups :: m[t]
  {
    if groups != [] {
      var last := |groups| - 1;
      EvictionRemovesWholeGroups(m, groups[..last]);
      assert groups == groups[..last] + [groups[last]];
    }
  }

  /** Evicting whole groups changes nothing for the groups that stay. */
  lemma EvictableAfterwards(m: Store, groups: seq<string>, group: string, t: string)
    ensures Evictable(AfterEvicting(m, groups), group, t)
       <==> t in AfterEvicting(m, groups) && Evictable(m, group, t)
  {
    EvictionRemovesWholeGroups(m, groups);
    var left := AfterEvicting(m, groups);
    if t in left {
      var g := m[t].action.group;
      assert forall u :: u in m && m[u].action.group == g ==> u in left;
    }
  }

  /** Of what may be evicted once `gone` is gone, `t` has the least key. */
  ghost predicate FirstAmong(m: Store, group: string, gone: seq<string>, t: string)
    requires t in m
  {
    forall u :: Evictable(m, group, u) && u != t && m[u].action.group !in gone ==> Before(m, t, u)
  }

  /** Victims have no member in progress, are not the new group, and come in the
      order of their least keys, before everything evictable that is kept. */
  lemma VictimsAreOldest(m: Store, capacity: nat, group: string, room: nat, victims: seq<string>, i: nat)
    requires EvictionOrder(m, capacity, group, room, victims) && i < |victims|
    ensures victims[i] != group && !GroupBusy(m, victims[i])
    ensures exists t :: t in m && m[t].action.group == victims[i] && FirstAmong(m, group, victims[..i], t)
  {
    var left := AfterEvicting(m, victims[..i]);
    EvictionRemovesWholeGroups(m, victims[..i]);
    assert NextVictim(left, group, victims[i]);
    var t :| IsOldest(left, group, t) && left[t].action.group == victims[i];
    EvictableAfterwards(m, victims[..i], group, t);
    forall u | Evictable(m, group, u) && u != t && m[u].action.group !in victims[..i]
      ensures Before(m, t, u)
    {
      EvictableAfterwards(m, victims[..i], group, u);
      assert Before(left, t, u);
    }
  }

  /** The outcome does not depend on the order in which the map is scanned. */
  lemma SameVictim(m: Store, group: string, a: string, b: string)
    requires NextVictim(m, group, a) && NextVictim(m, group, b)
    ensures a == b
  {
    var t :| IsOldest(m, group, t) && m[t].action.group == a;
    var u :| IsOldest(m, group, u) && m[u].action.group == b;
    OldestIsUnique(m, group, t, u);
  }

  lemma SomethingToEvict(m: Store, group: string, victim: string)
    requires NextVictim(m, group, victim)
    ensures !forall t :: !Evictable(m, group, t)
  {
  }

  /** Evictions stop at the first moment at which they may. */
  lemma NoMoreVictims(m: Store, capacity: nat, group: string, room: nat, a: seq<string>, b: seq<string>)
    requires Evictions(m, capacity, group, room, a) && EvictionOrder(m, capacity, group, room, b)
    requires |a| <= |b| && b[..|a|] == a
    ensures |a| == |b|
  {
    if |a| < |b| {
      SomethingToEvict(AfterEvicting(m, b[..|a|]), group, b[|a|]);
    }
  }

  lemma {:induction false} EvictionsAgree(m: Store, capacity: nat, group: string, room: nat,
                                          a: seq<string>, b: seq<string>, i: nat)
    requires Evictions(m, capacity, group, room, a) && Evictions(m, capacity, group, room, b)
    requires i <= |a| && i <= |b| && a[..i] == b[..i]
    ensures a == b
    decreases |a| - i
  {
    hide AfterEvicting, NextVictim;
    if i < |a| && i < |b| {
      SameVictim(AfterEvicting(m, a[..i]), group, a[i], b[i]);
      assert a[..i + 1] == a[..i] + [a[i]] && b[..i + 1] == b[..i] + [b[i]];
      EvictionsAgree(m, capacity, group, room, a, b, i + 1);
    } else if i == |a| {
      assert a == a[..i];
      NoMoreVictims(m, capacity, group, room, a, b);
      assert b == b[..i];
    } else {
      assert b == b[..i];
      NoMoreVictims(m, capacity, group, room, b, a);
    }
  }

  lemma PutIsDeterministic(m: Store, capacity: nat, actions: seq<(string, Action)>,
                           r: PutResult, m': Store, q: PutResult, n': Store)
    ensures PutEffect(m, capacity, actions, r, m') && PutEffect(m, capacity, actions, q, n') ==> r == q && m' == n'
  {
    if PutEffect(m, capacity, actions, r, m') && PutEffect(m, capacity, actions, q, n')
       && ValidGroup(actions, capacity) && !AnyTokenKnown(m, actions) {
      var group, room := actions[0].1.group, |actions|;
      var a :| Evictions(m, capacity, group, room, a)
        && var left := AfterEvicting(m, a);
           if |left| + room <= capacity then r == Stored && m' == left + NewRecords(actions)
           else r == Overflow && m' == left;
      var b :| Evictions(m, capacity, group, room, b)
        && var left := AfterEvicting(m, b);
           if |left| + room <= capacity then q == Stored && n' == left + NewRecords(actions)
           else q == Overflow && n' == left;
      EvictionsAgree(m, capacity, group, room, a, b, 0);
    }
  }

  // ------------------------------------------------------------------ runs

  datatype Event =
    | Put(actions: seq<(string, Action)>)
    | Press(token: string, scope: Scope, now: int)
    | Finish(token: string, result: Result)
    | Release(token: string)
    | CancelGroup(group: string)
    | Purge(now: int)

  ghost predicate Step(m: Store, capacity: nat, e: Event, m': Store) {
    match e
    case Put(actions) => exists r :: PutEffect(m, capacity, actions, r, m')
    case Press(token, scope, now) => m' == StoreAfterClaim(m, token, scope, now)
    case Finish(token, r) => m' == if MayFinish(m, token) then Finished(m, token, r) else m
    case Release(token) => m' == Released(m, token)
    case CancelGroup(group) => m' == CancelledGroup(m, group)
    case Purge(now) => m' == Purged(m, now)
  }

  /** What the callers learn from an event. */
  datatype Note =
    | Granted(token: string, group: string)
    | Settled(token: string, group: string)
    | Replayed(token: string, group: string, result: Option<Result>)
    | Nothing

  function NoteOf(m: Store, e: Event): Note {
    match e
    case Press(token, scope, now) =>
      var c := ClaimOutcome(m, token, scope, now);
      if c.Claimed? then Granted(token, c.action.group)
      else if c.AlreadyCompleted? then Replayed(token, m[token].action.group, c.result)
      else Nothing
    case Finish(token, _) =>
      if MayFinish(m, token) then Settled(token, m[token].action.group) else Nothing
    case _ => Nothing
  }

  predicate Introduces(e: Event, group: string) {
    e.Put? && e.actions != [] && e.actions[0].1.group == group
  }

  /** Group ids come from the UUID generator: no two puts share one. */
  ghost predicate FreshGroups(es: seq<Event>) {
    forall i, j, g :: 0 <= i < j < |es| && Introduces(es[i], g) ==> !Introduces(es[j], g)
  }

  ghost predicate History(ms: seq<Store>, capacity: nat, es: seq<Event>) {
    && |ms| == |es| + 1 && ms[0] == map[]
    && forall i :: 0 <= i < |es| ==> Step(ms[i], capacity, es[i], ms[i + 1])
  }

  // ------------------------------------------------ what every step keeps

  predicate SameGroup(m: Store, t: string, u: string) {
    t in m && u in m && m[t].action.group == m[u].action.group
  }

  /** At most one record per group is in progress; a completed record is alone
      in its group and holds a replayable result without private prose. */
  ghost predicate Sound(m: Store) {
    && (forall t, u :: SameGroup(m, t, u) && m[t].state == InProgress && m[u].state == InProgress ==> t == u)
    && (forall t, u :: SameGroup(m, t, u) && m[t].state == Completed ==> t == u)
    && (forall t :: t in m && m[t].state == Completed ==>
          && m[t].action.memory == None && m[t].action.item == None
          && m[t].result.Some? && NoProse(m[t].result.value))
  }

  lemma PutWitness(m: Store, capacity: nat, actions: seq<(string, Action)>, r: PutResult, m': Store)
    returns (victims: seq<string>)
    requires PutEffect(m, capacity, actions, r, m') && r in {Stored, Overflow}
    ensures ValidGroup(actions, capacity) && !AnyTokenKnown(m, actions)
    ensures EvictionOrder(m, capacity, actions[0].1.group, |actions|, victims)
    ensures var left := AfterEvicting(m, victims);
            if |left| + |actions| <= capacity then r == Stored && m' == left + NewRecords(actions)
            else r == Overflow && m' == left
  {
    victims :| Evictions(m, capacity, actions[0].1.group, |actions|, victims)
      && var left := AfterEvicting(m, victims);
         if |left| + |actions| <= capacity then r == Stored && m' == left + NewRecords(actions)
         else r == Overflow && m' == left;
  }

  lemma EvictionKeepsRecords(m: Store, capacity: nat, group: string, room: nat, victims: seq<string>)
    requires EvictionOrder(m, capacity, group, room, victims)
    ensures var left := AfterEvicting(m, victims);
            && |left| <= |m|
            && (forall t :: t in left ==> t in m && left[t] == m[t])
            && (forall t :: t in m && GroupBusy(m, m[t].action.group) ==> t in left)
  {
    EvictionRemovesWholeGroups(m, victims);
    NoBusyVictims(m, capacity, group, room, victims);
    SubsetIsSmaller(AfterEvicting(m, victims).Keys, m.Keys);
  }

  lemma StoredIsActive(m: Store, left: Store, actions: seq<(string, Action)>, capacity: nat)
    requires ValidGroup(actions, capacity) && !AnyTokenKnown(m, actions) && left.Keys <= m.Keys
    ensures var m' := left + NewRecords(actions);
            && |m'| == |left| + |actions|
            && (forall t :: t in m ==> t !in NewRecords(actions))
            && (forall t :: t in NewRecords(actions) ==>
                  m'[t].state == Active && m'[t].action.group == actions[0].1.group)
            && (forall i :: 0 <= i < |actions| ==>
                  actions[i].0 in m' && m'[actions[i].0] == Record(actions[i].1, Active, None))
  {
    NewRecordsAre(actions);
    var added := NewRecords(actions);
    assert left.Keys !! added.Keys;
    assert (left + added).Keys == left.Keys + added.Keys;
    assert |left.Keys + added.Keys| == |left.Keys| + |added.Keys|;
  }

  /** A successful put leaves the store within capacity with every new token
      active, and no put touches a record of a group being worked on. */
  lemma PutKeepsRecords(m: Store, capacity: nat, actions: seq<(string, Action)>, r: PutResult, m': Store)
    requires PutEffect(m, capacity, actions, r, m')
    ensures forall t :: t in m && t in m' ==> m'[t] == m[t]
    ensures forall t :: t in m' && t !in m ==>
              Introduces(Put(actions), m'[t].action.group) && m'[t].state == Active
    ensures forall t :: t in m && GroupBusy(m, m[t].action.group) ==> t in m'
    ensures r == Stored ==> |m'| <= capacity
    ensures r == Stored ==> forall i :: 0 <= i < |actions| ==>
              actions[i].0 in m' && m'[actions[i].0] == Record(actions[i].1, Active, None)
    ensures r != Stored ==> |m'| <= |m|
  {
    hide AfterEvicting, NewRecords, EvictionOrder, GroupBusy;
    if r in {Stored, Overflow} {
      var victims := PutWitness(m, capacity, actions, r, m');
      EvictionKeepsRecords(m, capacity, actions[0].1.group, |actions|, victims);
      StoredIsActive(m, AfterEvicting(m, victims), actions, capacity);
    }
  }

  lemma NoBusyVictims(m: Store, capacity: nat, group: string, room: nat, victims: seq<string>)
    requires EvictionOrder(m, capacity, group, room, victims)
    ensures forall v :: v in victims ==> !GroupBusy(m, v)
  {
    forall v | v in victims ensures !GroupBusy(m, v) {
      var i :| 0 <= i < |victims| && victims[i] == v;
      VictimsAreOldest(m, capacity, group, room, victims, i);
    }
  }

  /** An event brings no record into a group that the store already knows. */
  ghost predicate NewGroup(m: Store, e: Event) {
    forall t :: t in m ==> !Introduces(e, m[t].action.group)
  }

  lemma ClaimKeepsSound(m: Store, token: string, scope: Scope, now: int)
    requires Sound(m)
    ensures Sound(StoreAfterClaim(m, token, scope, now))
  {
    var purged, m' := Purged(m, now), StoreAfterClaim(m, token, scope, now);
    assert forall t, u :: SameGroup(m', t, u) ==> SameGroup(m, t, u);
  }

  lemma FinishKeepsSound(m: Store, token: string, r: Result)
    requires Sound(m) && MayFinish(m, token)
    ensures Sound(Finished(m, token, r))
  {
    var m' := Finished(m, token, r);
    assert forall t, u :: SameGroup(m', t, u) ==> SameGroup(m, t, u);
  }

  lemma ReleaseKeepsSound(m: Store, token: string)
    requires Sound(m)
    ensures Sound(Released(m, token))
  {
    assert forall t, u :: SameGroup(Released(m, token), t, u) ==> SameGroup(m, t, u);
  }

  lemma SubstoreIsSound(m: Store, m': Store)
    requires Sound(m)
    requires forall t :: t in m' ==> t in m && m'[t] == m[t]
    ensures Sound(m')
  {
    assert forall t, u :: SameGroup(m', t, u) ==> SameGroup(m, t, u);
  }

  lemma PutKeepsSound(m: Store, capacity: nat, actions: seq<(string, Action)>, r: PutResult, m': Store)
    requires Sound(m) && PutEffect(m, capacity, actions, r, m') && NewGroup(m, Put(actions))
    ensures Sound(m')
  {
    hide PutEffect, NoProse, GroupBusy, Introduces;
    PutKeepsRecords(m, capacity, actions, r, m');
    forall t, u | SameGroup(m', t, u) && t in m && u in m
      ensures SameGroup(m, t, u)
    {
    }
    assert forall t, u :: SameGroup(m', t, u) ==> (t in m <==> u in m);
  }

  lemma StepKeepsSound(m: Store, capacity: nat, e: Event, m': Store)
    requires Sound(m) && Step(m, capacity, e, m') && NewGroup(m, e)
    ensures Sound(m')
  {
    hide Sound, PutEffect, StoreAfterClaim, Finished, Released;
    match e
    case Put(actions) =>
      var r :| PutEffect(m, capacity, actions, r, m');
      PutKeepsSound(m, capacity, actions, r, m');
    case Press(token, scope, now) => ClaimKeepsSound(m, token, scope, now);
    case Finish(token, r) => if MayFinish(m, token) { FinishKeepsSound(m, token, r); }
    case Release(token) => ReleaseKeepsSound(m, token);
    case CancelGroup(group) => SubstoreIsSound(m, m');
    case Purge(now) => SubstoreIsSound(m, m');
  }

  /** Every group in the store was put there by an earlier event. */
  lemma {:induction false} GroupsHaveOrigins(ms: seq<Store>, capacity: nat, es: seq<Event>, i: nat, t: string)
    requires History(ms, capacity, es) && i <= |es| && t in ms[i]
    ensures exists k :: 0 <= k < i && Introduces(es[k], ms[i][t].action.group)
  {
    if i > 0 {
      var m, e := ms[i - 1], es[i - 1];
      assert Step(m, capacity, e, ms[i]);
      if t in m {
        KeepsGroup(m, capacity, e, ms[i], t);
        GroupsHaveOrigins(ms, capacity, es, i - 1, t);
      } else {
        var r :| PutEffect(m, capacity, e.actions, r, ms[i]);
        PutKeepsRecords(m, capacity, e.actions, r, ms[i]);
      }
    }
  }

  lemma KeepsGroup(m: Store, capacity: nat, e: Event, m': Store, t: string)
    requires Step(m, capacity, e, m') && t in m && t in m'
    ensures m'[t].action.group == m[t].action.group
  {
    hide PutEffect;
    if e.Put? {
      var r :| PutEffect(m, capacity, e.actions, r, m');
      PutKeepsRecords(m, capacity, e.actions, r, m');
    }
  }

  lemma PutsAreNew(ms: seq<Store>, capacity: nat, es: seq<Event>, i: nat)
    requires History(ms, capacity, es) && FreshGroups(es) && i < |es|
    ensures NewGroup(ms[i], es[i])
  {
    forall t | t in ms[i] ensures !Introduces(es[i], ms[i][t].action.group) {
      GroupsHaveOrigins(ms, capacity, es, i, t);
    }
  }

  lemma EmptyIsSound()
    ensures Sound(map[])
  {
  }

  lemma {:induction false} HistoriesAreSound(ms: seq<Store>, capacity: nat, es: seq<Event>, i: nat)
    requires History(ms, capacity, es) && FreshGroups(es) && i <= |es|
    ensures Sound(ms[i])
  {
    hide Step, Sound, NewGroup;
    if i == 0 {
      EmptyIsSound();
    } else {
      HistoriesAreSound(ms, capacity, es, i - 1);
      PutsAreNew(ms, capacity, es, i - 1);
      StepKeepsSound(ms[i - 1], capacity, es[i - 1], ms[i]);
    }
  }

  lemma StepKeepsCapacity(m: Store, capacity: nat, e: Event, m': Store)
    requires Step(m, capacity, e, m') && |m| <= capacity
    ensures |m'| <= capacity
  {
    hide PutEffect;
    match e
    case Put(actions) =>
      var r :| PutEffect(m, capacity, actions, r, m');
      PutKeepsRecords(m, capacity, actions, r, m');
    case _ => SubsetIsSmaller(m'.Keys, m.Keys);
  }

  lemma {:induction false} HistoriesFit(ms: seq<Store>, capacity: nat, es: seq<Event>, i: nat)
    requires History(ms, capacity, es) && i <= |es|
    ensures |ms[i]| <= capacity
  {
    hide Step;
    if i > 0 {
      HistoriesFit(ms, capacity, es, i - 1);
      StepKeepsCapacity(ms[i - 1], capacity, es[i - 1], ms[i]);
    }
  }

  // -------------------------------------------------- one winner per group

  /** All that is left of a group is its finished token, with this record. */
  ghost predicate Closed(m: Store, group: string, token: string, record: Record) {
    && record.state == Completed
    && forall u :: u in m && m[u].action.group == group ==> u == token && m[u] == record
  }

  lemma StepKeepsClosed(m: Store, capacity: nat, e: Event, m': Store, group: string, token: string, record: Record)
    requires Step(m, capacity, e, m') && Closed(m, group, token, record) && !Introduces(e, group)
    ensures Closed(m', group, token, record)
  {
    hide PutEffect;
    if e.Put? {
      var q :| PutEffect(m, capacity, e.actions, q, m');
      PutKeepsRecords(m, capacity, e.actions, q, m');
    }
  }

  lemma {:induction false} ClosedForEver(ms: seq<Store>, capacity: nat, es: seq<Event>, i: nat, j: nat,
                                         group: string, token: string, record: Record)
    requires History(ms, capacity, es) && i <= j <= |es| && Closed(ms[i], group, token, record)
    requires forall k :: i <= k < j ==> !Introduces(es[k], group)
    ensures Closed(ms[j], group, token, record)
  {
    hide Step, Closed;
    if i < j {
      ClosedForEver(ms, capacity, es, i, j - 1, group, token, record);
      StepKeepsClosed(ms[j - 1], capacity, es[j - 1], ms[j], group, token, record);
    }
  }

  /** What `Finish` leaves of the token's record. */
  function FinishedRecord(m: Store, token: string, r: Result): Record
    requires token in m
  {
    Record(m[token].action.(memory := None, item := None), Completed, Some(Trimmed(r)))
  }

  lemma FinishCloses(m: Store, token: string, r: Result)
    requires MayFinish(m, token)
    ensures Closed(Finished(m, token, r), m[token].action.group, token, FinishedRecord(m, token, r))
  {
  }

  lemma ClosedNote(m: Store, e: Event, group: string, token: string, record: Record)
    requires Closed(m, group, token, record)
    ensures var note := NoteOf(m, e);
            && (note.Granted? || note.Settled? ==> note.group != group)
            && (note.Replayed? && note.group == group ==> note.token == token && note.result == record.result)
  {
  }

  /** A finished group stays closed with that record as long as its id is not reused. */
  lemma FinishedStaysClosed(ms: seq<Store>, capacity: nat, es: seq<Event>, i: nat, j: nat)
    requires History(ms, capacity, es) && FreshGroups(es) && i < j <= |es|
    requires es[i].Finish? && MayFinish(ms[i], es[i].token)
    ensures Closed(ms[j], ms[i][es[i].token].action.group, es[i].token, FinishedRecord(ms[i], es[i].token, es[i].result))
  {
    hide Closed, Finished;
    var token := es[i].token;
    var group, record := ms[i][token].action.group, FinishedRecord(ms[i], token, es[i].result);
    assert Step(ms[i], capacity, es[i], ms[i + 1]);
    hide Step;
    FinishCloses(ms[i], token, es[i].result);
    GroupsHaveOrigins(ms, capacity, es, i, token);
    var origin :| 0 <= origin < i && Introduces(es[origin], group);
    ClosedForEver(ms, capacity, es, i + 1, j, group, token, record);
  }

  /** Confirm or cancel, never both: once a token of a group has been finished,
      no token of that group is granted or finished again, and pressing a button
      of the group replays at most the finished token's own trimmed result. */
  lemma OneWinnerPerGroup(ms: seq<Store>, capacity: nat, es: seq<Event>, i: nat, j: nat)
    requires History(ms, capacity, es) && FreshGroups(es) && i < j < |es|
    requires es[i].Finish? && MayFinish(ms[i], es[i].token)
    ensures var group, note := ms[i][es[i].token].action.group, NoteOf(ms[j], es[j]);
            && (note.Granted? || note.Settled? ==> note.group != group)
            && (note.Replayed? && note.group == group ==>
                  note.token == es[i].token && note.result == Some(Trimmed(es[i].result)))
    ensures NoProse(Trimmed(es[i].result))
  {
    hide Closed, NoteOf, Step;
    var token := es[i].token;
    FinishedStaysClosed(ms, capacity, es, i, j);
    ClosedNote(ms[j], es[j], ms[i][token].action.group, token, FinishedRecord(ms[i], token, es[i].result));
  }

  /** While it stays, the finished token does replay: only expiry and a press
      from outside its scope are answered otherwise. */
  lemma FinishedTokenReplays(m: Store, group: string, token: string, record: Record, scope: Scope, now: int)
    requires Closed(m, group, token, record) && token in m && m[token].action.group == group
    ensures m[token] == record
    ensures ClaimOutcome(m, token, scope, now) ==
              (if record.action.scope != scope then Unavailable
               else if record.action.expiresAt <= now then ExpiredClaim
               else AlreadyCompleted(record.result))
  {
  }

  /** The same over histories: in every later store that still holds the
      finished token for its group, its record is the one that finishing left,
      and pressing it has that answer, by the scope and expiry it was put with. */
  lemma FinishedTokenReplaysLater(ms: seq<Store>, capacity: nat, es: seq<Event>, i: nat, j: nat, scope: Scope, now: int)
    requires History(ms, capacity, es) && FreshGroups(es) && i < j <= |es|
    requires es[i].Finish? && MayFinish(ms[i], es[i].token)
    requires es[i].token in ms[j] && ms[j][es[i].token].action.group == ms[i][es[i].token].action.group
    ensures es[i].token in ms[i + 1] && ms[j][es[i].token] == ms[i + 1][es[i].token]
    ensures ClaimOutcome(ms[j], es[i].token, scope, now) ==
              (if ms[i][es[i].token].action.scope != scope then Unavailable
               else if ms[i][es[i].token].action.expiresAt <= now then ExpiredClaim
               else AlreadyCompleted(Some(Trimmed(es[i].result))))
  {
    hide Closed, ClaimOutcome;
    var token := es[i].token;
    var record := FinishedRecord(ms[i], token, es[i].result);
    assert Step(ms[i], capacity, es[i], ms[i + 1]);
    hide Step;
    FinishedStaysClosed(ms, capacity, es, i, j);
    FinishedTokenReplays(ms[j], ms[i][token].action.group, token, record, scope, now);
  }

  // ------------------------------------------------------ mutual exclusion

  /** The holder is still at work, or its group has been settled for good. */
  ghost predicate HeldOrClosed(m: Store, group: string, token: string) {
    || (token in m && m[token].action.group == group && m[token].state == InProgress)
    || (exists record: Record :: Closed(m, group, token, record))
  }

  /** Nothing but finishing or releasing it removes or changes a record in progress. */
  lemma HolderSurvives(m: Store, capacity: nat, e: Event, m': Store, token: string)
    requires Step(m, capacity, e, m') && Sound(m)
    requires token in m && m[token].state == InProgress
    requires !(e.Finish? && e.token == token) && !(e.Release? && e.token == token)
    ensures token in m' && m'[token] == m[token]
  {
    hide PutEffect;
    match e
    case Put(actions) =>
      var r :| PutEffect(m, capacity, actions, r, m');
      PutKeepsRecords(m, capacity, actions, r, m');
    case Finish(other, _) =>
      assert MayFinish(m, other) ==> !SameGroup(m, other, token);
    case _ =>
  }

  lemma StepKeepsHeld(m: Store, capacity: nat, e: Event, m': Store, group: string, token: string)
    requires Step(m, capacity, e, m') && Sound(m) && HeldOrClosed(m, group, token)
    requires !Introduces(e, group) && e != Release(token)
    ensures HeldOrClosed(m', group, token)
  {
    hide PutEffect;
    if record: Record :| Closed(m, group, token, record) {
      StepKeepsClosed(m, capacity, e, m', group, token, record);
    } else if e.Finish? && e.token == token {
      FinishCloses(m, token, e.result);
    } else {
      HolderSurvives(m, capacity, e, m', token);
    }
  }

  lemma {:induction false} HeldUntilReleased(ms: seq<Store>, capacity: nat, es: seq<Event>, i: nat, j: nat,
                                             group: string, token: string)
    requires History(ms, capacity, es) && FreshGroups(es) && i <= j <= |es|
    requires HeldOrClosed(ms[i], group, token)
    requires forall k :: i <= k < j ==> !Introduces(es[k], group) && es[k] != Release(token)
    ensures HeldOrClosed(ms[j], group, token)
  {
    hide Step, HeldOrClosed, Sound;
    if i < j {
      HeldUntilReleased(ms, capacity, es, i, j - 1, group, token);
      HistoriesAreSound(ms, capacity, es, j - 1);
      StepKeepsHeld(ms[j - 1], capacity, es[j - 1], ms[j], group, token);
    }
  }

  lemma GrantHolds(m: Store, e: Event, group: string)
    requires NoteOf(m, e).Granted? && NoteOf(m, e).group == group
    ensures e.token in m && m[e.token].action.group == group
    ensures HeldOrClosed(StoreAfterClaim(m, e.token, e.scope, e.now), group, e.token)
  {
  }

  lemma NoGrantWhileHeld(m: Store, e: Event, group: string, token: string)
    requires HeldOrClosed(m, group, token)
    ensures !(NoteOf(m, e).Granted? && NoteOf(m, e).group == group)
  {
  }

  /** Between two grants in one group lies a release of the first holder. */
  lemma GrantsExcludeEachOther(ms: seq<Store>, capacity: nat, es: seq<Event>, i: nat, j: nat)
    requires History(ms, capacity, es) && FreshGroups(es) && i < j < |es|
    requires NoteOf(ms[i], es[i]).Granted? && NoteOf(ms[j], es[j]).Granted?
    requires NoteOf(ms[i], es[i]).group == NoteOf(ms[j], es[j]).group
    ensures exists k :: i < k < j && es[k] == Release(es[i].token)
  {
    var token, group := es[i].token, NoteOf(ms[i], es[i]).group;
    if forall k :: i < k < j ==> es[k] != Release(token) {
      assert Step(ms[i], capacity, es[i], ms[i + 1]);
      hide Step, HeldOrClosed;
      GrantHolds(ms[i], es[i], group);
      GroupsHaveOrigins(ms, capacity, es, i, token);
      var origin :| 0 <= origin < i && Introduces(es[origin], group);
      HeldUntilReleased(ms, capacity, es, i + 1, j, group, token);
      NoGrantWhileHeld(ms[j], es[j], group, token);
      assert false;
    }
  }

  // ------------------------------------------- what each press and call does

  /** The token is known and pressed from its own scope. */
  predicate Own(m: Store, token: string, scope: Scope) {
    token in m && m[token].action.scope == scope
  }

  /** The five answers to a press, each exactly when it is due: a press is granted
      if and only if the token waits, is pressed from its scope before its expiry
      and nothing of its group is being worked on. */
  lemma PressIsAnswered(m: Store, token: string, scope: Scope, now: int)
    ensures var c := ClaimOutcome(m, token, scope, now);
            && (c.Unavailable? <==> !Own(m, token, scope))
            && (c.Claimed? <==> Own(m, token, scope) && m[token].state == Active && now < m[token].action.expiresAt
                                && !GroupBusy(m, m[token].action.group))
            && (c.BusyClaim? <==> Own(m, token, scope)
                                  && (m[token].state == InProgress
                                      || (m[token].state == Active && now < m[token].action.expiresAt
                                          && GroupBusy(m, m[token].action.group))))
            && (c.ExpiredClaim? <==> Own(m, token, scope) && m[token].state != InProgress
                                     && now >= m[token].action.expiresAt)
            && (c.AlreadyCompleted? <==> Own(m, token, scope) && m[token].state == Completed
                                         && now < m[token].action.expiresAt)
            && (c.Claimed? ==> c.action == m[token].action)
            && (c.AlreadyCompleted? ==> c.result == m[token].result)
  {
  }

  /** And what it leaves: expired records go, and a granted token is in progress. */
  lemma PressLeaves(m: Store, token: string, scope: Scope, now: int, t: string)
    ensures var m', granted := StoreAfterClaim(m, token, scope, now), ClaimOutcome(m, token, scope, now).Claimed?;
            && (t in m' <==> t in m && (m[t].state == InProgress || now < m[t].action.expiresAt))
            && (t in m' ==> m'[t] == if granted && t == token then m[t].(state := InProgress) else m[t])
  {
  }

  lemma GrantIsExact(m: Store, e: Event)
    ensures NoteOf(m, e).Granted? <==>
              && e.Press? && Own(m, e.token, e.scope) && m[e.token].state == Active
              && e.now < m[e.token].action.expiresAt && !GroupBusy(m, m[e.token].action.group)
  {
    hide ClaimOutcome;
    if e.Press? {
      PressIsAnswered(m, e.token, e.scope, e.now);
    }
  }

  predicate PutsAt(e: Event, i: nat, token: string, action: Action) {
    e.Put? && i < |e.actions| && e.actions[i] == (token, action)
  }

  lemma NewIsPut(m: Store, capacity: nat, actions: seq<(string, Action)>, r: PutResult, m': Store, t: string)
    requires PutEffect(m, capacity, actions, r, m') && r in {Stored, Overflow} && t in m' && t !in m
    ensures exists i: nat :: PutsAt(Put(actions), i, t, m'[t].action)
  {
    hide PutEffect, AfterEvicting, NewRecords, EvictionOrder, GroupBusy, ValidUuidV4, WellFormedAction, AnyTokenKnown;
    var victims := PutWitness(m, capacity, actions, r, m');
    EvictionKeepsRecords(m, capacity, actions[0].1.group, |actions|, victims);
    NewRecordsAre(actions);
    var i :| 0 <= i < |actions| && actions[i].0 == t;
    assert PutsAt(Put(actions), i, t, m'[t].action);
  }

  /** A record that is not finished holds the action that a put stored under it. */
  lemma {:induction false} ActionsWerePut(ms: seq<Store>, capacity: nat, es: seq<Event>, i: nat, t: string)
    requires History(ms, capacity, es) && i <= |es| && t in ms[i] && ms[i][t].state != Completed
    ensures exists k: nat, j: nat :: k < i && PutsAt(es[k], j, t, ms[i][t].action)
  {
    if i > 0 {
      var m, e, m' := ms[i - 1], es[i - 1], ms[i];
      assert Step(m, capacity, e, m');
      if t in m {
        KeepsAction(m, capacity, e, m', t);
        ActionsWerePut(ms, capacity, es, i - 1, t);
      } else {
        var r :| PutEffect(m, capacity, e.actions, r, m');
        assert r in {Stored, Overflow};
        NewIsPut(m, capacity, e.actions, r, m', t);
      }
    }
  }

  lemma KeepsAction(m: Store, capacity: nat, e: Event, m': Store, t: string)
    requires Step(m, capacity, e, m') && t in m && t in m' && m'[t].state != Completed
    ensures m'[t].action == m[t].action && m[t].state != Completed
  {
    hide PutEffect;
    if e.Put? {
      var r :| PutEffect(m, capacity, e.actions, r, m');
      PutKeepsRecords(m, capacity, e.actions, r, m');
    }
  }

  /** Whatever is granted was put under that very token, for the presser's scope. */
  lemma GrantedWasPut(ms: seq<Store>, capacity: nat, es: seq<Event>, i: nat)
    requires History(ms, capacity, es) && i < |es| && NoteOf(ms[i], es[i]).Granted?
    ensures es[i].Press? && ClaimOutcome(ms[i], es[i].token, es[i].scope, es[i].now).Claimed?
    ensures var action := ClaimOutcome(ms[i], es[i].token, es[i].scope, es[i].now).action;
            && action.scope == es[i].scope && es[i].now < action.expiresAt
            && exists k: nat, j: nat :: k < i && PutsAt(es[k], j, es[i].token, action)
  {
    hide Step;
    ActionsWerePut(ms, capacity, es, i, es[i].token);
  }

  /** A released token is granted again to its scope until it expires. */
  lemma ReleasedIsGranted(m: Store, token: string, scope: Scope, now: int)
    requires Sound(m) && MayFinish(m, token)
    ensures ClaimOutcome(Released(m, token), token, scope, now).Claimed?
       <==> scope == m[token].action.scope && now < m[token].action.expiresAt
  {
    hide ClaimOutcome;
    var m' := Released(m, token);
    PressIsAnswered(m', token, scope, now);
    forall u | u in m' && m'[u].action.group == m[token].action.group
      ensures m'[u].state != InProgress
    {
      assert SameGroup(m, u, token);
    }
  }

  /** After a cancel nothing of the group is left but what is being worked on, and
      every other record is untouched. */
  lemma CancelLeaves(m: Store, group: string, t: string)
    ensures var m' := CancelledGroup(m, group);
            && (t in m' <==> t in m && (m[t].action.group != group || m[t].state == InProgress))
            && (t in m' ==> m'[t] == m[t])
  {
  }

  /** Trimming keeps what identifies the outcome. */
  lemma TrimmedKeeps(r: Result)
    ensures var t := Trimmed(r);
            && NoProse(t) && t.code == r.code && t.becameCanon == r.becameCanon && t.wakeOutbox == r.wakeOutbox
            && t.wakeScheduler == r.wakeScheduler && t.draftCancelled == r.draftCancelled
            && (t.entry.Some? <==> r.entry.Some?)
            && (r.entry.Some? ==>
                  && t.entry.value.entryId == r.entry.value.entryId && t.entry.value.status == r.entry.value.status
                  && t.entry.value.revision == r.entry.value.revision)
  {
  }

  // ------------------------------------------------- when a put succeeds

  /** What no eviction for this group removes: its own records, and those of groups
      that are being worked on. */
  ghost function Kept(m: Store, group: string): set<string> {
    set t | t in m && (m[t].action.group == group || GroupBusy(m, m[t].action.group))
  }

  lemma EvictionsKeep(m: Store, capacity: nat, group: string, room: nat, victims: seq<string>)
    requires EvictionOrder(m, capacity, group, room, victims)
    ensures Kept(m, group) <= AfterEvicting(m, victims).Keys
    ensures (forall t :: !Evictable(AfterEvicting(m, victims), group, t)) ==>
              AfterEvicting(m, victims).Keys == Kept(m, group)
  {
    var left := AfterEvicting(m, victims);
    EvictionRemovesWholeGroups(m, victims);
    forall t | t in Kept(m, group)
      ensures t in left
    {
      if m[t].action.group in victims {
        var i :| 0 <= i < |victims| && victims[i] == m[t].action.group;
        VictimsAreOldest(m, capacity, group, room, victims, i);
      }
    }
    forall t | t in left
      ensures Evictable(left, group, t) <==> t !in Kept(m, group)
    {
      EvictableAfterwards(m, victims, group, t);
    }
  }

  /** A put answers: invalid exactly for an ill-formed group, duplicate exactly when a
      token is known, and otherwise it succeeds exactly when the new group fits
      beside what no eviction removes. */
  lemma PutDecides(m: Store, capacity: nat, actions: seq<(string, Action)>, r: PutResult, m': Store)
    requires PutEffect(m, capacity, actions, r, m')
    ensures r == InvalidGroup <==> !ValidGroup(actions, capacity)
    ensures r == DuplicateToken <==> ValidGroup(actions, capacity) && AnyTokenKnown(m, actions)
    ensures r == Stored <==>
              && ValidGroup(actions, capacity) && !AnyTokenKnown(m, actions)
              && |Kept(m, actions[0].1.group)| + |actions| <= capacity
    ensures r in {InvalidGroup, DuplicateToken} ==> m' == m
  {
    hide AfterEvicting, NewRecords, EvictionOrder, GroupBusy, ValidGroup, Kept, Evictable;
    if ValidGroup(actions, capacity) && !AnyTokenKnown(m, actions) {
      var group := ValidGroupName(actions, capacity);
      var victims :| Evictions(m, capacity, group, |actions|, victims)
        && var left := AfterEvicting(m, victims);
           if |left| + |actions| <= capacity then r == Stored && m' == left + NewRecords(actions)
           else r == Overflow && m' == left;
      var left := AfterEvicting(m, victims);
      EvictionsKeep(m, capacity, group, |actions|, victims);
      SubsetIsSmaller(Kept(m, group), left.Keys);
      assert |left| == |left.Keys|;
    }
  }

  /** Whatever a put evicts belongs to another group that nobody works on, and a
      record of that group expires no later than any record that might have been
      evicted instead. */
  lemma EvictedExpireFirst(m: Store, capacity: nat, actions: seq<(string, Action)>, r: PutResult, m': Store,
                           gone: string, kept: string)
    requires PutEffect(m, capacity, actions, r, m') && gone in m && gone !in m' && kept in m && kept in m'
    ensures r in {Stored, Overflow} && actions != []
    ensures m[gone].action.group != actions[0].1.group && !GroupBusy(m, m[gone].action.group)
    ensures m[kept].action.group != actions[0].1.group && !GroupBusy(m, m[kept].action.group) ==>
              exists v :: SameGroup(m, v, gone) && m[v].action.expiresAt <= m[kept].action.expiresAt
  {
    hide AfterEvicting, NewRecords, EvictionOrder, GroupBusy, WellFormedAction, ValidUuidV4;
    var victims := PutWitness(m, capacity, actions, r, m');
    var group, left := actions[0].1.group, AfterEvicting(m, victims);
    NewRecordsAre(actions);
    EvictionRemovesWholeGroups(m, victims);
    var i :| 0 <= i < |victims| && victims[i] == m[gone].action.group;
    VictimsAreOldest(m, capacity, group, |actions|, victims, i);
    var v :| v in m && m[v].action.group == victims[i] && FirstAmong(m, group, victims[..i], v);
    assert SameGroup(m, v, gone);
    if Evictable(m, group, kept) {
      assert kept in left;
      assert m[kept].action.group !in victims;
    }
  }

  lemma ValidGroupName(actions: seq<(string, Action)>, capacity: nat) returns (group: string)
    requires ValidGroup(actions, capacity)
    ensures actions != [] && group == actions[0].1.group
  {
    group := actions[0].1.group;
  }
}
