/**
 * What the unique columns of the accounts hold in every interleaving: each PAN and each phone is
 * the one a committed call carried, in the form its caller asked for, and nobody shares either.
 */
module CredentialColumns {
  import opened Prelude
  import Text
  import opened Credentials
  import opened CredentialProtocol

  function Requests(steps: seq<Step>): set<Request>
    decreases |steps|
  {
    if steps == [] then {} else (if steps[0].Read? then {steps[0].request} else {}) + Requests(steps[1..])
  }

  ghost predicate PanAsked(asked: set<Request>, id: string, pan: string) {
    exists text :: AddPan(id, text) in asked && pan == Text.Code(text)
  }

  ghost predicate PhoneAsked(asked: set<Request>, id: string, phone: string) {
    exists text :: SendPhone(id, text) in asked && phone == Text.Trim(text)
  }

  ghost predicate CallAsked(asked: set<Request>, c: Call) {
    && (c.AddingPan? ==> PanAsked(asked, c.id, c.pan))
    && (c.SettingPhone? ==> PhoneAsked(asked, c.id, c.phone))
  }

  ghost predicate Logged(log: seq<Call>, c: Call) {
    exists i :: 0 <= i < |log| && log[i] == c
  }

  /** The PAN is that of the account's committed PAN call, the phone that of a committed phone call. */
  ghost predicate ColumnsLogged(s: State, id: string)
    requires id in s.db.identities
  {
    && (forall pan :: s.db.identities[id].pan == Some(pan) <==> Logged(s.log, AddingPan(id, pan)))
    && (s.db.identities[id].phone.Some? ==> Logged(s.log, SettingPhone(id, s.db.identities[id].phone.value)))
  }

  /** No two accounts have a phone or a PAN in common. */
  ghost predicate Unshared(db: Db) {
    var t := db.identities;
    && (forall a, b | a in t && b in t && t[a].phone == t[b].phone != None :: a == b)
    && (forall a, b | a in t && b in t && t[a].pan == t[b].pan != None :: a == b)
  }

  /** At most one PAN call per account has ever committed, and only for accounts that exist. */
  ghost predicate OnePanCall(s: State) {
    && (forall i, j | 0 <= i < j < |s.log| && s.log[i].AddingPan? && s.log[j].AddingPan? :: s.log[i].id != s.log[j].id)
    && (forall i | 0 <= i < |s.log| :: s.log[i].id in s.db.identities)
  }

  ghost predicate AllAsked(s: State, asked: set<Request>) {
    && (forall call :: call in s.pending ==> CallAsked(asked, s.pending[call]))
    && (forall i | 0 <= i < |s.log| :: CallAsked(asked, s.log[i]))
  }

  ghost predicate Sourced(s: State, asked: set<Request>) {
    && AllAsked(s, asked) && Unshared(s.db) && OnePanCall(s)
    && (forall id :: id in s.db.identities ==> ColumnsLogged(s, id))
  }

  // ---------------------------------------------------------------- one step

  lemma AskedGrows(asked: set<Request>, more: set<Request>, c: Call)
    requires CallAsked(asked, c) && asked <= more
    ensures CallAsked(more, c)
  {
    if c.AddingPan? {
      var text :| AddPan(c.id, text) in asked && c.pan == Text.Code(text);
      assert AddPan(c.id, text) in more;
    }
    if c.SettingPhone? {
      var text :| SendPhone(c.id, text) in asked && c.phone == Text.Trim(text);
      assert SendPhone(c.id, text) in more;
    }
  }

  lemma LogGrows(log: seq<Call>, c: Call, d: Call)
    ensures Logged(log + [c], d) <==> Logged(log, d) || c == d
  {
    assert forall i :: 0 <= i < |log| ==> (log + [c])[i] == log[i];
    assert (log + [c])[|log|] == c;
  }

  /** What a commit does to the two columns: it changes one account's, by the value that it carries. */
  ghost predicate Carries(a: Db, b: Db, c: Call) {
    && c.id in a.identities && c.id in b.identities && b.identities == a.identities[c.id := b.identities[c.id]]
    && b.identities[c.id].pan == (if c.AddingPan? then Some(c.pan) else a.identities[c.id].pan)
    && b.identities[c.id].phone == (if c.SettingPhone? then Some(c.phone) else a.identities[c.id].phone)
    && (c.AddingPan? ==> a.identities[c.id].onboarding == PanPending)
    && (forall other | other in a.identities && other != c.id ::
          && (c.AddingPan? ==> a.identities[other].pan != Some(c.pan))
          && (c.SettingPhone? ==> a.identities[other].phone != Some(c.phone)))
  }

  lemma CommitCarries(db: Db, c: Call, drawn: string, now: int)
    requires Writing(db, c, drawn, now).Some?
    ensures Carries(db, Writing(db, c, drawn, now).value, c)
  {
  }

  lemma CarryingKeepsColumns(s: State, t: State, c: Call, id: string)
    requires Carries(s.db, t.db, c) && t.log == s.log + [c] && id in t.db.identities
    requires ColumnsLogged(s, id) && PanPrecedesStage(s.db.identities[id])
    ensures ColumnsLogged(t, id)
  {
    forall pan ensures t.db.identities[id].pan == Some(pan) <==> Logged(t.log, AddingPan(id, pan)) {
      LogGrows(s.log, c, AddingPan(id, pan));
    }
    if t.db.identities[id].phone.Some? {
      LogGrows(s.log, c, SettingPhone(id, t.db.identities[id].phone.value));
    }
  }

  lemma CarryingKeepsUnshared(a: Db, b: Db, c: Call)
    requires Unshared(a) && Carries(a, b, c)
    ensures Unshared(b)
  {
  }

  lemma CarryingKeepsOnePan(s: State, t: State, c: Call)
    requires OnePanCall(s) && Carries(s.db, t.db, c) && t.log == s.log + [c]
    requires ColumnsLogged(s, c.id) && PanPrecedesStage(s.db.identities[c.id])
    ensures OnePanCall(t)
  {
    if c.AddingPan? {
      forall i | 0 <= i < |s.log| && s.log[i].AddingPan? ensures s.log[i].id != c.id {
        assert Logged(s.log, AddingPan(s.log[i].id, s.log[i].pan));
      }
    }
  }

  lemma WriteKeepsSourced(s: State, asked: set<Request>, call: nat, drawn: string)
    requires Inv(s) && Sourced(s, asked) && MayWrite(s, call, drawn)
    ensures Sourced(Written(s, call, drawn), asked)
  {
    var c, t := s.pending[call], Written(s, call, drawn);
    if Writing(s.db, c, drawn, s.now).Some? {
      CommitCarries(s.db, c, drawn, s.now);
      assert AccountOk(s, c.id);
      CarryingKeepsUnshared(s.db, t.db, c);
      CarryingKeepsOnePan(s, t, c);
      forall id | id in t.db.identities ensures ColumnsLogged(t, id) {
        assert AccountOk(s, id);
        CarryingKeepsColumns(s, t, c, id);
      }
    } else {
      forall id | id in t.db.identities ensures ColumnsLogged(t, id) {
        assert ColumnsLogged(s, id);
      }
    }
  }

  /** The step left the log alone, and phone and PAN of every account; new accounts have neither. */
  ghost predicate ColumnsAside(s: State, t: State) {
    && t.log == s.log && s.db.identities.Keys <= t.db.identities.Keys
    && (forall id :: id in t.db.identities ==>
          var row := t.db.identities[id];
          if id in s.db.identities then row.phone == s.db.identities[id].phone && row.pan == s.db.identities[id].pan
          else row.phone == None == row.pan)
  }

  lemma EventLeavesColumns(s: State, event: Event)
    ensures ColumnsAside(s, Happened(s, event)) && Happened(s, event).pending == s.pending
  {
    match event
    case Create(_, _, _, _) =>
    case SetActive(_, _) =>
    case _ => assert Happened(s, event).db.identities == s.db.identities;
  }

  lemma AsideKeepsSourced(s: State, t: State, asked: set<Request>)
    requires Sourced(s, asked) && ColumnsAside(s, t)
    requires forall call :: call in t.pending ==> CallAsked(asked, t.pending[call])
    ensures Sourced(t, asked)
  {
    forall id | id in t.db.identities ensures ColumnsLogged(t, id) {
      if id in s.db.identities {
        assert ColumnsLogged(s, id);
      } else {
        forall pan ensures !Logged(t.log, AddingPan(id, pan)) {
          assert forall i :: 0 <= i < |s.log| ==> s.log[i].id in s.db.identities;
        }
      }
    }
  }

  /** A read remembers the PAN or phone its caller gave, in canonical form. */
  lemma ReadingIsAsked(db: Db, r: Request)
    requires Reading(db, r).Some?
    ensures CallAsked({r}, Reading(db, r).value)
  {
    if r.AddPan? {
      assert AddPan(r.id, r.pan) in {r};
    }
    if r.SendPhone? {
      assert SendPhone(r.id, r.phone) in {r};
    }
  }

  lemma ReadKeepsSourced(s: State, asked: set<Request>, call: nat, r: Request)
    requires Sourced(s, asked) && r in asked
    ensures Sourced(Next(s, Read(call, r)), asked)
  {
    var t := Next(s, Read(call, r));
    if t.pending != s.pending {
      ReadingIsAsked(s.db, r);
      AskedGrows({r}, asked, Reading(s.db, r).value);
    }
    AsideKeepsSourced(s, t, asked);
  }

  lemma NextKeepsSourced(s: State, asked: set<Request>, step: Step)
    requires Inv(s) && Sourced(s, asked) && (step.Read? ==> step.request in asked)
    ensures Sourced(Next(s, step), asked)
  {
    match step
    case Happen(event) =>
      EventLeavesColumns(s, event);
      AsideKeepsSourced(s, Happened(s, event), asked);
    case Read(call, r) => ReadKeepsSourced(s, asked, call, r);
    case Write(call, drawn) =>
      if MayWrite(s, call, drawn) {
        WriteKeepsSourced(s, asked, call, drawn);
      }
    case _ => AsideKeepsSourced(s, Next(s, step), asked);
  }

  lemma {:induction false} RunKeepsSourced(s: State, asked: set<Request>, steps: seq<Step>)
    requires Inv(s) && Sourced(s, asked) && Requests(steps) <= asked
    ensures Sourced(Run(s, steps), asked)
    decreases |steps|
  {
    if steps != [] {
      NextKeepsInv(s, steps[0]);
      NextKeepsSourced(s, asked, steps[0]);
      RunKeepsSourced(Next(s, steps[0]), asked, steps[1..]);
    }
  }

  // ---------------------------------------------------------------- whole runs

  /**
   * In every interleaving: an account has a PAN if and only if a PAN call for it committed, only
   * one ever did, and the stored PAN is the one that call carried, which is the canonical form of
   * one that somebody asked to add to this account.
   */
  lemma PanIsTheCommitted(steps: seq<Step>, id: string, pan: string)
    requires id in Run(START, steps).db.identities
    ensures var s := Run(START, steps);
            && (s.db.identities[id].pan == Some(pan) <==> Logged(s.log, AddingPan(id, pan)))
            && (s.db.identities[id].pan == Some(pan) ==> PanAsked(Requests(steps), id, pan))
            && OnePanCall(s)
  {
    RunKeepsSourced(START, Requests(steps), steps);
    var s := Run(START, steps);
    assert ColumnsLogged(s, id);
    if s.db.identities[id].pan == Some(pan) {
      var i :| 0 <= i < |s.log| && s.log[i] == AddingPan(id, pan);
      assert CallAsked(Requests(steps), s.log[i]);
    }
  }

  /** The stored phone is one that a committed call carried, trimmed from what somebody asked for. */
  lemma PhoneIsACommitted(steps: seq<Step>, id: string, phone: string)
    requires id in Run(START, steps).db.identities && Run(START, steps).db.identities[id].phone == Some(phone)
    ensures Logged(Run(START, steps).log, SettingPhone(id, phone)) && PhoneAsked(Requests(steps), id, phone)
  {
    RunKeepsSourced(START, Requests(steps), steps);
    var s := Run(START, steps);
    assert ColumnsLogged(s, id);
    var i :| 0 <= i < |s.log| && s.log[i] == SettingPhone(id, phone);
    assert CallAsked(Requests(steps), s.log[i]);
  }

  /** No interleaving lets two accounts have the same phone or the same PAN. */
  lemma NobodyShares(steps: seq<Step>, a: string, b: string)
    requires a in Run(START, steps).db.identities && b in Run(START, steps).db.identities && a != b
    ensures var t := Run(START, steps).db.identities;
            && (t[a].phone.Some? ==> t[b].phone != t[a].phone)
            && (t[a].pan.Some? ==> t[b].pan != t[a].pan)
  {
    RunKeepsSourced(START, Requests(steps), steps);
  }
}
