/** The driver wallet: an available balance, a carbon-token balance, the
    transaction history (newest first), the social-security welfare register
    and whether the current driver's contribution is paid this month. Every
    handler is one atomic transition of this record; the ids the program draws
    at random and the locale-formatted date are parameters. */
module Ledger {
  import opened Wrappers

  datatype TxKind = Income | Carbon | Withdraw | Sso | Tax | Fee
  datatype TxStatus = Completed | Pending | Rejected | AutoDeduct
  datatype SsoStatus = Paid | Unpaid
  datatype AdminChoice = Approve | Reject

  /** The breakdown attached to a withdrawal: gross = tax + fee + sso + net. */
  datatype Details = Details(gross: real, tax: real, fee: real, sso: real, net: real)

  datatype Transaction = Transaction(
    id: string, title: string, kind: TxKind, amount: real, time: string,
    status: TxStatus, details: Option<Details>, driverName: Option<string>)

  datatype Welfare = Welfare(id: string, name: string, ssoStatus: SsoStatus, lastPaid: Option<string>, contribution: real)

  datatype Reward = Reward(id: string, name: string, cost: real)

  datatype Wallet = Wallet(
    balance: real, carbonBalance: real, txs: seq<Transaction>,
    welfare: seq<Welfare>, ssoPaid: bool, profileName: string)

  const TaxRate: real := 0.03
  const PlatformFee: real := 15.0
  const SsoContribution: real := 750.0

  const PendingTitle: string := "คำขอถอนเงิน (รออนุมัติ)"
  const RejectedTitle: string := "คำขอถอนเงิน (ถูกปฏิเสธ)"
  const ApprovedTitle: string := "ถอนเงินเข้าบัญชี (อนุมัติแล้ว)"
  const RedeemPrefix: string := "แลกรางวัล: "
  const JustNow: string := "เมื่อสักครู่"

  const Rewards: seq<Reward> := [
    Reward("R01", "คูปองเติมน้ำมัน 100 บาท", 400.0),
    Reward("R02", "ส่วนลดกาแฟ Amazon 20 บาท", 80.0),
    Reward("R03", "ประกันอุบัติเหตุเพิ่ม 1 เดือน", 1200.0)
  ]

  const ProfileName: string := "สมชาย ใจดี"

  /** The fixed part of the opening history (the generated pending requests
      that precede it are a parameter of InitialWallet). */
  const InitialHistory: seq<Transaction> := [
    Transaction("TX-9981", "ค่าเที่ยวขนส่ง (Job #2567-001)", Income, 1500.0, "10:45 น.", Completed,
                Some(Details(1500.0, 45.0, 0.0, 0.0, 1455.0)), None),
    Transaction("TX-9982", "Carbon Credit Bonus", Carbon, 45.0, "10:46 น.", Completed,
                Some(Details(45.0, 0.0, 0.0, 0.0, 45.0)), None),
    Transaction("TX-9980", "หักนำส่งประกันสังคม (ม.33)", Sso, -750.0, "08:00 น.", AutoDeduct,
                Some(Details(0.0, 0.0, 0.0, 750.0, -750.0)), None),
    Transaction("TX-9979", "ถอนเงินเข้าบัญชีธนาคาร", Withdraw, -2000.0, "เมื่อวาน", Completed,
                Some(Details(2000.0, 60.0, 15.0, 0.0, 1925.0)), None)
  ]

  const OwnWelfare: Welfare := Welfare("DRV-089", ProfileName, Paid, Some("25/10/2566"), 750.0)

  /** The opening wallet, given the generated pending requests and the
      generated register entries of other drivers. */
  function InitialWallet(generated: seq<Transaction>, register: seq<Welfare>): (w: Wallet)
    ensures |w.txs| == |generated| + |InitialHistory| && w.txs[|generated|..] == InitialHistory
    ensures |w.welfare| == |register| + 1 && w.welfare[0] == OwnWelfare
    ensures w.balance == 4850.50 && w.carbonBalance == 320.0 && w.ssoPaid
  {
    Wallet(4850.50, 320.0, generated + InitialHistory, [OwnWelfare] + register, true, ProfileName)
  }

  /** A missing or empty driver name is falsy in JavaScript, so such a
      transaction belongs to the current driver. */
  predicate IsOwn(t: Transaction, profile: string) {
    t.driverName.None? || t.driverName.value == "" || t.driverName.value == profile
  }

  /** The driver a transaction is settled for: its own name when non-empty,
      otherwise the current driver. */
  function DriverOf(t: Transaction, profile: string): (name: string)
    ensures name == profile <==> IsOwn(t, profile)
  {
    if t.driverName.Some? && t.driverName.value != "" then t.driverName.value else profile
  }

  // ---------------------------------------------------------------------
  // Deductions and withdrawal

  /** 3% withholding tax, a fixed 15 platform fee, and the 750 contribution
      when this month's is not yet paid; the net is what remains. */
  function CalculateDeductions(amount: real, ssoPaid: bool): (d: Details)
    ensures d.gross == amount
    ensures d.tax == TaxRate * amount && d.fee == PlatformFee
    ensures d.sso == (if ssoPaid then 0.0 else SsoContribution)
    ensures d.tax + d.fee + d.sso + d.net == amount
  {
    var tax := amount * TaxRate;
    var sso := if ssoPaid then 0.0 else SsoContribution;
    Details(amount, tax, PlatformFee, sso, amount - tax - PlatformFee - sso)
  }

  /** The guard of a withdrawal request: the amount parsed, is positive and
      is covered by the balance. */
  predicate CanWithdraw(w: Wallet, amount: Option<real>) {
    amount.Some? && amount.value > 0.0 && amount.value <= w.balance
  }

  /** A withdrawal request holds the amount out of the balance at once and
      records a pending request for an administrator to decide. */
  function RequestWithdraw(w: Wallet, amount: Option<real>, txId: string): (r: Wallet)
    ensures !CanWithdraw(w, amount) ==> r == w
    ensures CanWithdraw(w, amount) ==>
      var a := amount.value;
      && r.balance == w.balance - a
      && |r.txs| == |w.txs| + 1 && r.txs[1..] == w.txs
      && r.txs[0].id == txId && r.txs[0].kind == Withdraw && r.txs[0].status == Pending
      && r.txs[0].amount == -a && r.txs[0].title == PendingTitle && r.txs[0].time == JustNow
      && r.txs[0].driverName == Some(w.profileName)
      && r.txs[0].details == Some(CalculateDeductions(a, w.ssoPaid))
      && r.carbonBalance == w.carbonBalance && r.welfare == w.welfare
      && r.ssoPaid == w.ssoPaid && r.profileName == w.profileName
  {
    if amount.None? || amount.value <= 0.0 || amount.value > w.balance then w
    else
      var a := amount.value;
      var tx := Transaction(txId, PendingTitle, Withdraw, -a, JustNow, Pending,
                            Some(CalculateDeductions(a, w.ssoPaid)), Some(w.profileName));
      w.(txs := [tx] + w.txs, balance := w.balance - a)
  }

  // ---------------------------------------------------------------------
  // Carbon-token redemption

  /** Redeeming a reward spends its cost in carbon tokens when they suffice. */
  function Redeem(w: Wallet, reward: Reward, txId: string): (r: Wallet)
    ensures w.carbonBalance < reward.cost ==> r == w
    ensures w.carbonBalance >= reward.cost ==>
      && r.carbonBalance == w.carbonBalance - reward.cost
      && |r.txs| == |w.txs| + 1 && r.txs[1..] == w.txs
      && r.txs[0] == Transaction(txId, RedeemPrefix + reward.name, Carbon, -reward.cost, JustNow, Completed, None, None)
      && r.balance == w.balance && r.welfare == w.welfare
      && r.ssoPaid == w.ssoPaid && r.profileName == w.profileName
  {
    if w.carbonBalance < reward.cost then w
    else
      var tx := Transaction(txId, RedeemPrefix + reward.name, Carbon, -reward.cost, JustNow, Completed, None, None);
      w.(carbonBalance := w.carbonBalance - reward.cost, txs := [tx] + w.txs)
  }

  // ---------------------------------------------------------------------
  // Administrator decisions

  /** The first transaction carrying the id. */
  function FindTx(txs: seq<Transaction>, id: string): (r: Option<Transaction>)
    ensures r.None? <==> forall k :: 0 <= k < |txs| ==> txs[k].id != id
    ensures r.Some? ==> exists k :: 0 <= k < |txs| && txs[k] == r.value && r.value.id == id
                                    && forall k' :: 0 <= k' < k ==> txs[k'].id != id
  {
    if |txs| == 0 then None
    else if txs[0].id == id then Some(txs[0])
    else
      var r := FindTx(txs[1..], id);
      if r.Some? then
        var k :| 0 <= k < |txs[1..]| && txs[1..][k] == r.value && r.value.id == id
                 && forall k' :: 0 <= k' < k ==> txs[1..][k'].id != id;
        assert txs[k + 1] == r.value;
        r
      else r
  }

  function DecidedStatus(c: AdminChoice): TxStatus {
    if c == Reject then Rejected else Completed
  }

  function DecidedTitle(c: AdminChoice): string {
    if c == Reject then RejectedTitle else ApprovedTitle
  }

  /** Every transaction carrying the id takes the decided status and title. */
  function Decide(txs: seq<Transaction>, id: string, c: AdminChoice): (r: seq<Transaction>)
    ensures |r| == |txs|
    ensures forall k :: 0 <= k < |txs| && txs[k].id != id ==> r[k] == txs[k]
    ensures forall k :: 0 <= k < |txs| && txs[k].id == id ==>
              r[k] == txs[k].(status := DecidedStatus(c), title := DecidedTitle(c))
  {
    seq(|txs|, k requires 0 <= k < |txs| =>
      if txs[k].id == id then txs[k].(status := DecidedStatus(c), title := DecidedTitle(c)) else txs[k])
  }

  /** Approving a withdrawal that carried the contribution marks every
      register entry under that driver's name as paid today. */
  function SettleWelfare(ws: seq<Welfare>, name: string, today: string): (r: seq<Welfare>)
    ensures |r| == |ws|
    ensures forall k :: 0 <= k < |ws| && ws[k].name != name ==> r[k] == ws[k]
    ensures forall k :: 0 <= k < |ws| && ws[k].name == name ==>
              r[k] == ws[k].(ssoStatus := Paid, lastPaid := Some(today))
  {
    seq(|ws|, k requires 0 <= k < |ws| =>
      if ws[k].name == name then ws[k].(ssoStatus := Paid, lastPaid := Some(today)) else ws[k])
  }

  predicate CarriesSso(t: Transaction) {
    t.details.Some? && t.details.value.sso > 0.0
  }

  /** An administrator approves or rejects the first transaction carrying the
      id (every transaction with that id is relabelled). Rejecting the
      current driver's own request refunds the held amount; approving one
      that carried the contribution settles it in the welfare register. */
  function AdminAction(w: Wallet, id: string, c: AdminChoice, today: string): (r: Wallet)
    ensures FindTx(w.txs, id).None? ==> r == w
    ensures FindTx(w.txs, id).Some? ==>
      var tx := FindTx(w.txs, id).value;
      && r.txs == Decide(w.txs, id, c)
      && r.carbonBalance == w.carbonBalance && r.profileName == w.profileName
      && (c == Reject ==>
            && r.balance == (if IsOwn(tx, w.profileName) then w.balance + Abs(tx.amount) else w.balance)
            && r.welfare == w.welfare && r.ssoPaid == w.ssoPaid)
      && (c == Approve ==>
            && r.balance == w.balance
            && (CarriesSso(tx) ==>
                  && r.welfare == SettleWelfare(w.welfare, DriverOf(tx, w.profileName), today)
                  && r.ssoPaid == (w.ssoPaid || IsOwn(tx, w.profileName)))
            && (!CarriesSso(tx) ==> r.welfare == w.welfare && r.ssoPaid == w.ssoPaid))
  {
    match FindTx(w.txs, id)
    case None => w
    case Some(tx) =>
      var txs := Decide(w.txs, id, c);
      if c == Reject then
        w.(txs := txs, balance := if IsOwn(tx, w.profileName) then w.balance + Abs(tx.amount) else w.balance)
      else if CarriesSso(tx) then
        var name := DriverOf(tx, w.profileName);
        w.(txs := txs, welfare := SettleWelfare(w.welfare, name, today),
           ssoPaid := if name == w.profileName then true else w.ssoPaid)
      else w.(txs := txs)
  }

  // ---------------------------------------------------------------------
  // Welfare toggle

  function Flip(s: SsoStatus): (f: SsoStatus)
    ensures f != s
  {
    if s == Paid then Unpaid else Paid
  }

  /** The entry with the id flips between paid and unpaid; a paid entry is
      stamped with today's date and an unpaid one loses its date. */
  function ToggleEntry(d: Welfare, today: string): (e: Welfare)
    ensures e.ssoStatus != d.ssoStatus
    ensures e.lastPaid.None? <==> e.ssoStatus == Unpaid
    ensures e.ssoStatus == Paid ==> e.lastPaid == Some(today)
    ensures e.id == d.id && e.name == d.name && e.contribution == d.contribution
  {
    var s := Flip(d.ssoStatus);
    d.(ssoStatus := s, lastPaid := if s == Paid then Some(today) else None)
  }

  /** The current driver's paid flag as the toggle leaves it: each toggled
      entry under the current driver's name overwrites it in register order. */
  function SyncSso(ws: seq<Welfare>, id: string, profile: string, acc: bool): bool
    decreases |ws|
  {
    if |ws| == 0 then acc
    else
      var acc' := if ws[0].id == id && ws[0].name == profile then Flip(ws[0].ssoStatus) == Paid else acc;
      SyncSso(ws[1..], id, profile, acc')
  }

  predicate TogglesOwn(d: Welfare, id: string, profile: string) {
    d.id == id && d.name == profile
  }

  /** Entry `k` is the last one the toggle of `id` flips under the driver's name. */
  predicate LastOwnToggle(ws: seq<Welfare>, id: string, profile: string, k: nat)
    requires k < |ws|
  {
    TogglesOwn(ws[k], id, profile) && forall k' :: k < k' < |ws| ==> !TogglesOwn(ws[k'], id, profile)
  }

  function Toggle(w: Wallet, id: string, today: string): (r: Wallet)
    ensures |r.welfare| == |w.welfare|
    ensures forall k :: 0 <= k < |w.welfare| && w.welfare[k].id != id ==> r.welfare[k] == w.welfare[k]
    ensures forall k :: 0 <= k < |w.welfare| && w.welfare[k].id == id ==> r.welfare[k] == ToggleEntry(w.welfare[k], today)
    ensures r.balance == w.balance && r.carbonBalance == w.carbonBalance
    ensures r.txs == w.txs && r.profileName == w.profileName
    ensures (forall k :: 0 <= k < |w.welfare| ==> !TogglesOwn(w.welfare[k], id, w.profileName)) ==>
              r.ssoPaid == w.ssoPaid
    ensures forall k :: 0 <= k < |w.welfare| && LastOwnToggle(w.welfare, id, w.profileName, k) ==>
              r.ssoPaid == (Flip(w.welfare[k].ssoStatus) == Paid)
  {
    SyncSsoDecided(w.welfare, id, w.profileName, w.ssoPaid);
    var ws := seq(|w.welfare|, k requires 0 <= k < |w.welfare| =>
      if w.welfare[k].id == id then ToggleEntry(w.welfare[k], today) else w.welfare[k]);
    w.(welfare := ws, ssoPaid := SyncSso(w.welfare, id, w.profileName, w.ssoPaid))
  }

  // ---------------------------------------------------------------------
  // Derived views

  /** The administrator's queue: the pending transactions in history order. */
  function PendingTransactions(txs: seq<Transaction>): (r: seq<Transaction>)
    ensures forall t :: t in r <==> t in txs && t.status == Pending
    ensures |r| <= |txs|
    ensures |txs| == 1 ==> r == (if txs[0].status == Pending then txs else [])
  {
    if |txs| == 0 then []
    else if txs[0].status == Pending then [txs[0]] + PendingTransactions(txs[1..])
    else PendingTransactions(txs[1..])
  }

  predicate OwnCarbon(t: Transaction, profile: string) {
    t.kind == Carbon && IsOwn(t, profile)
  }

  /** Carbon tokens the current driver has earned: their positive carbon entries. */
  function CarbonEarned(txs: seq<Transaction>, profile: string): (s: real)
    ensures s >= 0.0
    ensures |txs| == 1 ==> s == (if OwnCarbon(txs[0], profile) && txs[0].amount > 0.0 then txs[0].amount else 0.0)
  {
    if |txs| == 0 then 0.0
    else (if OwnCarbon(txs[0], profile) && txs[0].amount > 0.0 then txs[0].amount else 0.0)
         + CarbonEarned(txs[1..], profile)
  }

  /** Carbon tokens the current driver has spent: their negative carbon entries. */
  function CarbonSpent(txs: seq<Transaction>, profile: string): (s: real)
    ensures s >= 0.0
    ensures |txs| == 1 ==> s == (if OwnCarbon(txs[0], profile) && txs[0].amount < 0.0 then -txs[0].amount else 0.0)
  {
    if |txs| == 0 then 0.0
    else (if OwnCarbon(txs[0], profile) && txs[0].amount < 0.0 then -txs[0].amount else 0.0)
         + CarbonSpent(txs[1..], profile)
  }

  /** The queue of a history split in two is the queue of the first part
      followed by the queue of the second: together with the one-transaction
      case this fixes the queue as the pending transactions in history
      order, repeats included. */
  lemma {:induction false} PendingConcat(a: seq<Transaction>, b: seq<Transaction>)
    decreases |a|
    ensures PendingTransactions(a + b) == PendingTransactions(a) + PendingTransactions(b)
  {
    if |a| == 0 {
      assert a + b == b;
    } else {
      assert (a + b)[1..] == a[1..] + b;
      PendingConcat(a[1..], b);
    }
  }

  /** Both carbon totals add up over a history split in two. */
  lemma {:induction false} CarbonConcat(a: seq<Transaction>, b: seq<Transaction>, profile: string)
    decreases |a|
    ensures CarbonEarned(a + b, profile) == CarbonEarned(a, profile) + CarbonEarned(b, profile)
    ensures CarbonSpent(a + b, profile) == CarbonSpent(a, profile) + CarbonSpent(b, profile)
  {
    if |a| == 0 {
      assert a + b == b;
    } else {
      assert (a + b)[1..] == a[1..] + b;
      CarbonConcat(a[1..], b, profile);
    }
  }

  /** A queue with every transaction carrying the id taken out, order kept. */
  function DropId(ts: seq<Transaction>, id: string): (r: seq<Transaction>)
    ensures forall t :: t in r <==> t in ts && t.id != id
  {
    if |ts| == 0 then []
    else (if ts[0].id == id then [] else [ts[0]]) + DropId(ts[1..], id)
  }

  /** Deciding the transactions with an id removes exactly them from the queue. */
  lemma {:induction false} PendingAfterDecide(txs: seq<Transaction>, id: string, c: AdminChoice)
    decreases |txs|
    ensures PendingTransactions(Decide(txs, id, c)) == DropId(PendingTransactions(txs), id)
  {
    if |txs| > 0 {
      var d := Decide(txs, id, c);
      assert d[1..] == Decide(txs[1..], id, c);
      PendingAfterDecide(txs[1..], id, c);
      var rest := PendingTransactions(txs[1..]);
      if txs[0].status == Pending {
        var q := [txs[0]] + rest;
        assert q[0] == txs[0] && q[1..] == rest;
      }
    }
  }

  // ---------------------------------------------------------------------
  // Properties

  /** Neither balance is ever driven below zero. */
  predicate Solvent(w: Wallet) {
    w.balance >= 0.0 && w.carbonBalance >= 0.0
  }

  lemma SolventPreserved(w: Wallet, amount: Option<real>, reward: Reward, id: string, c: AdminChoice, today: string)
    requires Solvent(w)
    ensures Solvent(RequestWithdraw(w, amount, id))
    ensures Solvent(Redeem(w, reward, id))
    ensures Solvent(AdminAction(w, id, c, today))
    ensures Solvent(Toggle(w, id, today))
  {
  }

  predicate FreshId(w: Wallet, id: string) {
    forall k :: 0 <= k < |w.txs| ==> w.txs[k].id != id
  }

  /** Rejecting a request just made under a fresh id refunds exactly what
      was held, and leaves the rest of the history as it was. */
  lemma WithdrawThenReject(w: Wallet, amount: Option<real>, txId: string, today: string)
    requires CanWithdraw(w, amount) && FreshId(w, txId)
    ensures var r := AdminAction(RequestWithdraw(w, amount, txId), txId, Reject, today);
      && r.balance == w.balance
      && r.txs[1..] == w.txs && r.txs[0].status == Rejected && r.txs[0].title == RejectedTitle
      && r.txs[0].amount == -amount.value
      && r.welfare == w.welfare && r.ssoPaid == w.ssoPaid && r.carbonBalance == w.carbonBalance
  {
    var v := RequestWithdraw(w, amount, txId);
    assert FindTx(v.txs, txId) == Some(v.txs[0]);
    var r := AdminAction(v, txId, Reject, today);
    assert r.txs[1..] == w.txs by {
      forall k | 0 <= k < |w.txs| ensures r.txs[k + 1] == w.txs[k] {
        assert v.txs[k + 1] == w.txs[k];
      }
    }
  }

  /** Approving a request just made under a fresh id keeps the held amount
      out of the balance and leaves the current driver's contribution paid:
      a request made while unpaid carried the 750 and settles it, marking the
      driver's register entries paid today. */
  lemma WithdrawThenApprove(w: Wallet, amount: Option<real>, txId: string, today: string)
    requires CanWithdraw(w, amount) && FreshId(w, txId)
    ensures var r := AdminAction(RequestWithdraw(w, amount, txId), txId, Approve, today);
      && r.balance == w.balance - amount.value
      && r.txs[1..] == w.txs && r.txs[0].status == Completed && r.txs[0].title == ApprovedTitle
      && r.ssoPaid
      && (!w.ssoPaid ==> r.welfare == SettleWelfare(w.welfare, w.profileName, today))
      && (w.ssoPaid ==> r.welfare == w.welfare)
  {
    var v := RequestWithdraw(w, amount, txId);
    assert FindTx(v.txs, txId) == Some(v.txs[0]);
    var r := AdminAction(v, txId, Approve, today);
    assert r.txs[1..] == w.txs by {
      forall k | 0 <= k < |w.txs| ensures r.txs[k + 1] == w.txs[k] {
        assert v.txs[k + 1] == w.txs[k];
      }
    }
  }

  /** A request joins the front of the administrator's queue. */
  lemma PendingAfterWithdraw(w: Wallet, amount: Option<real>, txId: string)
    requires CanWithdraw(w, amount)
    ensures var r := RequestWithdraw(w, amount, txId);
      PendingTransactions(r.txs) == [r.txs[0]] + PendingTransactions(w.txs)
  {
    var r := RequestWithdraw(w, amount, txId);
    assert r.txs[1..] == w.txs;
  }

  /** A decision takes every transaction with that id out of the queue and
      leaves the rest of the queue alone, in order. */
  lemma DecisionLeavesQueue(w: Wallet, id: string, c: AdminChoice, today: string)
    ensures var r := AdminAction(w, id, c, today);
      PendingTransactions(r.txs) == DropId(PendingTransactions(w.txs), id)
  {
    var r := AdminAction(w, id, c, today);
    PendingAfterDecide(w.txs, id, c);
    if FindTx(w.txs, id).None? {
      assert Decide(w.txs, id, c) == w.txs;
    }
  }

  /** Toggling an entry twice gives back its status and everything but its date. */
  lemma ToggleTwice(w: Wallet, id: string, d1: string, d2: string)
    ensures var r := Toggle(Toggle(w, id, d1), id, d2);
      && |r.welfare| == |w.welfare|
      && forall k :: 0 <= k < |w.welfare| ==>
           && r.welfare[k].ssoStatus == w.welfare[k].ssoStatus
           && r.welfare[k] == w.welfare[k].(lastPaid := r.welfare[k].lastPaid)
           && (w.welfare[k].id == id && w.welfare[k].ssoStatus == Paid ==> r.welfare[k].lastPaid == Some(d2))
           && (w.welfare[k].id == id && w.welfare[k].ssoStatus == Unpaid ==> r.welfare[k].lastPaid == None)
  {
  }

  /** With no toggled entry under the current driver's name, the paid flag is left alone. */
  lemma {:induction false} SyncSsoUntouched(ws: seq<Welfare>, id: string, profile: string, acc: bool)
    requires forall k :: 0 <= k < |ws| ==> !TogglesOwn(ws[k], id, profile)
    decreases |ws|
    ensures SyncSso(ws, id, profile, acc) == acc
  {
    if |ws| > 0 {
      assert !TogglesOwn(ws[0], id, profile);
      SyncSsoUntouched(ws[1..], id, profile, acc);
    }
  }

  /** Otherwise the last toggled entry under that name decides it. */
  lemma {:induction false} SyncSsoLast(ws: seq<Welfare>, id: string, profile: string, acc: bool, k: nat)
    requires k < |ws| && TogglesOwn(ws[k], id, profile)
    requires forall k' :: k < k' < |ws| ==> !TogglesOwn(ws[k'], id, profile)
    decreases |ws|
    ensures SyncSso(ws, id, profile, acc) == (Flip(ws[k].ssoStatus) == Paid)
  {
    var acc' := if TogglesOwn(ws[0], id, profile) then Flip(ws[0].ssoStatus) == Paid else acc;
    if k == 0 {
      SyncSsoUntouched(ws[1..], id, profile, acc');
    } else {
      SyncSsoLast(ws[1..], id, profile, acc', k - 1);
    }
  }

  /** The paid flag after a sweep: unchanged when no entry under the driver's
      name is toggled, otherwise the flipped status of the last such entry. */
  lemma SyncSsoDecided(ws: seq<Welfare>, id: string, profile: string, acc: bool)
    ensures (forall k :: 0 <= k < |ws| ==> !TogglesOwn(ws[k], id, profile)) ==>
              SyncSso(ws, id, profile, acc) == acc
    ensures forall k :: 0 <= k < |ws| && LastOwnToggle(ws, id, profile, k) ==>
              SyncSso(ws, id, profile, acc) == (Flip(ws[k].ssoStatus) == Paid)
  {
    if forall k :: 0 <= k < |ws| ==> !TogglesOwn(ws[k], id, profile) {
      SyncSsoUntouched(ws, id, profile, acc);
    }
    forall k | 0 <= k < |ws| && LastOwnToggle(ws, id, profile, k)
      ensures SyncSso(ws, id, profile, acc) == (Flip(ws[k].ssoStatus) == Paid)
    {
      SyncSsoLast(ws, id, profile, acc, k);
    }
  }

  /** The paid flag agrees with every register entry under the current driver's name. */
  predicate SsoConsistent(w: Wallet) {
    forall k :: 0 <= k < |w.welfare| && w.welfare[k].name == w.profileName ==>
      (w.welfare[k].ssoStatus == Paid <==> w.ssoPaid)
  }

  /** The current driver has at most one register entry. */
  predicate SingleOwnEntry(w: Wallet) {
    forall k, k' :: 0 <= k < k' < |w.welfare| && w.welfare[k].name == w.profileName ==> w.welfare[k'].name != w.profileName
  }

  /** Every handler keeps the paid flag in step with the register, given the
      current driver has a single entry there. */
  lemma SsoConsistentPreserved(w: Wallet, amount: Option<real>, reward: Reward, id: string, c: AdminChoice, today: string)
    requires SsoConsistent(w) && SingleOwnEntry(w)
    ensures SsoConsistent(RequestWithdraw(w, amount, id))
    ensures SsoConsistent(Redeem(w, reward, id))
    ensures SsoConsistent(AdminAction(w, id, c, today))
    ensures SsoConsistent(Toggle(w, id, today))
  {
    AdminSsoConsistent(w, id, c, today);
    ToggleSsoConsistent(w, id, today);
  }

  /** An administrator's decision keeps the paid flag in step with the register. */
  lemma AdminSsoConsistent(w: Wallet, id: string, c: AdminChoice, today: string)
    requires SsoConsistent(w)
    ensures SsoConsistent(AdminAction(w, id, c, today))
  {
  }

  /** The welfare toggle keeps the paid flag in step with the register when the
      current driver has a single entry there. */
  lemma ToggleSsoConsistent(w: Wallet, id: string, today: string)
    requires SsoConsistent(w) && SingleOwnEntry(w)
    ensures SsoConsistent(Toggle(w, id, today))
  {
    var r := Toggle(w, id, today);
    forall k | 0 <= k < |r.welfare| && r.welfare[k].name == r.profileName
      ensures r.welfare[k].ssoStatus == Paid <==> r.ssoPaid
    {
      if w.welfare[k].id == id {
        SyncSsoLast(w.welfare, id, w.profileName, w.ssoPaid, k);
      } else {
        SyncSsoUntouched(w.welfare, id, w.profileName, w.ssoPaid);
      }
    }
  }

  /** Redeeming moves tokens from the carbon balance to the spent total and
      leaves the earned total alone. */
  lemma RedeemConservesCarbon(w: Wallet, reward: Reward, txId: string)
    requires reward.cost >= 0.0
    ensures var r := Redeem(w, reward, txId);
      && r.carbonBalance + CarbonSpent(r.txs, r.profileName) == w.carbonBalance + CarbonSpent(w.txs, w.profileName)
      && CarbonEarned(r.txs, r.profileName) == CarbonEarned(w.txs, w.profileName)
  {
    var r := Redeem(w, reward, txId);
    if w.carbonBalance >= reward.cost {
      assert r.txs[1..] == w.txs;
    }
  }

  /** The opening wallet is solvent and its paid flag agrees with the
      register, provided the generated register holds no other entry under
      the current driver's name. */
  lemma InitialWalletConsistent(generated: seq<Transaction>, register: seq<Welfare>)
    requires forall k :: 0 <= k < |register| ==> register[k].name != ProfileName
    ensures var w := InitialWallet(generated, register);
      Solvent(w) && SsoConsistent(w) && SingleOwnEntry(w)
  {
    var w := InitialWallet(generated, register);
    assert forall k :: 1 <= k < |w.welfare| ==> w.welfare[k] == register[k - 1];
  }

  /** The recorded bank withdrawal agrees with the deduction rule at a paid
      month, and the opening history shows 45 tokens earned and none spent. */
  lemma InitialHistoryFacts()
    ensures InitialHistory[3].details == Some(CalculateDeductions(2000.0, true))
    ensures CarbonEarned(InitialHistory, ProfileName) == 45.0
    ensures CarbonSpent(InitialHistory, ProfileName) == 0.0
  {
    var h := InitialHistory;
    assert h[1..][1..][1..][1..] == [];
    assert CarbonEarned(h[1..][1..][1..], ProfileName) == 0.0;
  }
}
