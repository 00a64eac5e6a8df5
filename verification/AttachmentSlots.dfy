/** Admission of uploads (src/attachments.rs): an account uploads one file at a time and
    the server accepts four bodies at once. Handlers run concurrently and may be dropped
    at any point. */
module AttachmentSlots {

  import opened Wrappers

  const UPLOADS: nat := 4

  datatype Account = Account(uuid: nat)

  /** `Closing`: the permit is returned, the account's slot not yet. */
  datatype Progress = Reserved | Working | Closing

  datatype Handler = Handler(account: Account, progress: Progress)

  datatype Slots = Slots(accounts: set<Account>, permits: nat, handlers: map<nat, Handler>)

  datatype Action =
    | Reserve(h: nat, account: Account)
    | Acquire(h: nat)
    | ReturnPermit(h: nat)
    | FreeAccount(h: nat)

  predicate Enabled(s: Slots, a: Action) {
    match a
    case Reserve(h, _) => h !in s.handlers
    case Acquire(h) => h in s.handlers && s.handlers[h].progress.Reserved?
    case ReturnPermit(h) => h in s.handlers && s.handlers[h].progress.Working?
    case FreeAccount(h) => h in s.handlers && !s.handlers[h].progress.Working?
  }

  /** A refused reservation (429) leaves no trace; a refused permit (503) leaves the handler
      with its slot, which it then frees. */
  function Step(s: Slots, a: Action): Slots
    requires Enabled(s, a)
  {
    match a
    case Reserve(h, account) =>
      if account in s.accounts then s
      else s.(accounts := s.accounts + {account}, handlers := s.handlers[h := Handler(account, Reserved)])
    case Acquire(h) =>
      if s.permits == 0 then s
      else s.(permits := s.permits - 1, handlers := s.handlers[h := s.handlers[h].(progress := Working)])
    case ReturnPermit(h) =>
      s.(permits := s.permits + 1, handlers := s.handlers[h := s.handlers[h].(progress := Closing)])
    case FreeAccount(h) =>
      s.(accounts := s.accounts - {s.handlers[h].account}, handlers := s.handlers - {h})
  }

  function AtWork(s: Slots): set<nat> {
    set h | h in s.handlers && s.handlers[h].progress.Working?
  }

  predicate Inv(s: Slots) {
    && s.permits + |AtWork(s)| == UPLOADS
    && s.accounts == (set h | h in s.handlers :: s.handlers[h].account)
    && forall g, h | g in s.handlers && h in s.handlers && g != h :: s.handlers[g].account != s.handlers[h].account
  }

  lemma WorkPut(s: Slots, t: Slots, h: nat, x: Handler)
    requires t.handlers == s.handlers[h := x]
    ensures AtWork(t) == if x.progress.Working? then AtWork(s) + {h} else AtWork(s) - {h}
  {}

  lemma WorkDropped(s: Slots, t: Slots, h: nat)
    requires t.handlers == s.handlers - {h}
    ensures AtWork(t) == AtWork(s) - {h}
  {}

  lemma PermitsStep(s: Slots, a: Action)
    requires Enabled(s, a)
    ensures Step(s, a).permits + |AtWork(Step(s, a))| == s.permits + |AtWork(s)|
  {
    var t := Step(s, a);
    match a
    case Reserve(h, account) =>
      if account !in s.accounts {
        WorkPut(s, t, h, Handler(account, Reserved));
        assert h !in AtWork(s);
      }
    case Acquire(h) =>
      if s.permits > 0 {
        WorkPut(s, t, h, s.handlers[h].(progress := Working));
        assert h !in AtWork(s);
      }
    case ReturnPermit(h) =>
      WorkPut(s, t, h, s.handlers[h].(progress := Closing));
      assert h in AtWork(s);
    case FreeAccount(h) =>
      WorkDropped(s, t, h);
      assert h !in AtWork(s);
  }

  lemma StepKeepsInv(s: Slots, a: Action)
    requires Inv(s) && Enabled(s, a)
    ensures Inv(Step(s, a))
  {
    PermitsStep(s, a);
    var t := Step(s, a);
    forall account
      ensures account in t.accounts <==> exists h :: h in t.handlers && t.handlers[h].account == account
    {
      if account in t.accounts {
        if a.Reserve? && account !in s.accounts {
          assert t.handlers[a.h].account == account;
        } else {
          var h :| h in s.handlers && s.handlers[h].account == account;
          assert t.handlers[h].account == account;
        }
      }
      if h :| h in t.handlers && t.handlers[h].account == account {
        assert h in s.handlers ==> s.handlers[h].account == account;
      }
    }
    assert t.accounts == (set h | h in t.handlers :: t.handlers[h].account);
  }

  predicate IsRun(trace: seq<Slots>, actions: seq<Action>) {
    && |trace| == |actions| + 1
    && trace[0] == Slots({}, UPLOADS, map[])
    && forall n {:trigger actions[n]} | 0 <= n < |actions| ::
         Enabled(trace[n], actions[n]) && trace[n + 1] == Step(trace[n], actions[n])
  }

  lemma {:induction false} RunKeepsInv(trace: seq<Slots>, actions: seq<Action>, n: nat)
    requires IsRun(trace, actions) && n < |trace|
    ensures Inv(trace[n])
  {
    if n == 0 {
      assert AtWork(trace[0]) == {};
    } else {
      RunKeepsInv(trace, actions, n - 1);
      StepKeepsInv(trace[n - 1], actions[n - 1]);
    }
  }

  /** A reservation succeeds exactly when no upload of the account is in flight, and a body is
      accepted exactly when fewer than four are being read. */
  lemma AdmitsExactly(trace: seq<Slots>, actions: seq<Action>, n: nat)
    requires IsRun(trace, actions) && n < |actions|
    ensures var s, t, a := trace[n], trace[n + 1], actions[n];
            && (a.Reserve? ==>
                  (a.h in t.handlers <==> forall g | g in s.handlers :: s.handlers[g].account != a.account))
            && (a.Reserve? && a.h in t.handlers ==> t.handlers[a.h] == Handler(a.account, Reserved))
            && (a.Reserve? && a.h !in t.handlers ==> t == s)
            && (a.Acquire? ==> (a.h in AtWork(t) <==> |AtWork(s)| < 4) && (a.h !in AtWork(t) ==> t == s))
  {
    var a := actions[n];
    RunKeepsInv(trace, actions, n);
    assert Enabled(trace[n], a) && trace[n + 1] == Step(trace[n], a);
  }

  /** Never more than four bodies at once, never two uploads of one account, and an account
      is refused only while an upload of its own is in flight; when the last handler is gone
      every slot and permit is back. */
  lemma SlotsHold(trace: seq<Slots>, actions: seq<Action>, n: nat)
    requires IsRun(trace, actions) && n < |trace|
    ensures |AtWork(trace[n])| <= 4
    ensures forall g, h | g in AtWork(trace[n]) && h in AtWork(trace[n]) && g != h ::
              trace[n].handlers[g].account != trace[n].handlers[h].account
    ensures forall account :: account in trace[n].accounts <==>
              exists h :: h in trace[n].handlers && trace[n].handlers[h].account == account
    ensures trace[n].handlers == map[] ==> trace[n].accounts == {} && trace[n].permits == 4
  {
    RunKeepsInv(trace, actions, n);
    if trace[n].handlers == map[] {
      assert AtWork(trace[n]) == {};
    }
  }
}
