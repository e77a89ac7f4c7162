/** The wallet-generation card (GenerateMnemonic): the confirm-before-erase
    rule around generating a wallet, the details toggle and the copy status.
    The random wallet and the user's answer to the confirm dialog are
    parameters. */
module Mnemonic {
  import opened Wrappers

  /** What `ethers.Wallet.createRandom()` returns, as far as the card reads it. */
  datatype RandomWallet = RandomWallet(phrase: Option<string>, address: string, privateKey: string)

  datatype WalletInfo = WalletInfo(mnemonic: string, address: string, privateKey: string)

  datatype State = State(
    walletInfo: Option<WalletInfo>,
    isGenerated: bool,
    confirmRegenerate: bool,
    showDetails: bool,
    copyStatus: string)

  const Initial := State(None, false, false, true, "")

  /** The record kept of a fresh wallet: its phrase ('' without one), its
      address and its private key. */
  function InfoOf(w: RandomWallet): (info: WalletInfo)
    ensures info.mnemonic == (if w.phrase.Some? then w.phrase.value else "")
    ensures info.address == w.address && info.privateKey == w.privateKey
  {
    WalletInfo(if w.phrase.Some? then w.phrase.value else "", w.address, w.privateKey)
  }

  /** The state right after a generation. */
  function Generated(w: RandomWallet): (st: State)
    ensures st.walletInfo == Some(InfoOf(w))
    ensures st.isGenerated && !st.confirmRegenerate && st.showDetails && st.copyStatus == ""
  {
    State(Some(InfoOf(w)), true, false, true, "")
  }

  /** One click: whether the confirm dialog was shown, and the state after. */
  datatype Click = Click(asked: bool, next: State)

  /** handleGenerate on the committed state `st`: asks first when a wallet
      exists and no regeneration was confirmed; stops when the user declines;
      otherwise replaces the wallet. `answer` is the reply to the dialog and
      is only read when the dialog is shown. */
  function Generate(st: State, answer: bool, w: RandomWallet): (c: Click)
    ensures c.asked <==> st.isGenerated && !st.confirmRegenerate
    ensures c.asked && !answer ==> c.next == st
    ensures !(c.asked && !answer) ==> c.next == Generated(w)
  {
    var asked := st.isGenerated && !st.confirmRegenerate;
    if asked && !answer then Click(true, st) else Click(asked, Generated(w))
  }

  /** The first generation never asks. */
  lemma FirstGenerationNeverAsks(st: State, answer: bool, w: RandomWallet)
    requires !st.isGenerated
    ensures Generate(st, answer, w) == Click(false, Generated(w))
  {
  }

  /** handleRegenerateClick AS WRITTEN: it queues
      `setConfirmRegenerate(true)` when a wallet exists and then runs
      handleGenerate on the same committed state. When the user declines,
      handleGenerate returns early and the queued flag is what commits. */
  function ClickAsWritten(st: State, answer: bool, w: RandomWallet): (c: Click)
    ensures c.asked <==> st.isGenerated && !st.confirmRegenerate
    ensures c.asked && !answer ==> c.next == st.(confirmRegenerate := true)
    ensures !(c.asked && !answer) ==> c.next == Generated(w)
  {
    var c := Generate(st, answer, w);
    if c.asked && !answer then Click(true, st.(confirmRegenerate := true)) else c
  }

  /** Declining the dialog, then clicking again: the second click does not
      ask and erases the wallet the user chose to keep. */
  lemma DeclineThenEraseAsWritten(w1: RandomWallet, w2: RandomWallet, w3: RandomWallet)
    requires InfoOf(w3) != InfoOf(w1)
    ensures var kept := ClickAsWritten(Generated(w1), false, w2);
      var again := ClickAsWritten(kept.next, false, w3);
      && kept.asked && kept.next.walletInfo == Some(InfoOf(w1))
      && !again.asked && again.next.walletInfo == Some(InfoOf(w3))
  {
  }

  /** A sequence of clicks of the Generate Wallet button, each with the
      dialog's answer and the wallet it would generate. As intended, a click is
      handleGenerate itself: the dialog is the only guard. */
  function RunCorrected(st: State, clicks: seq<(bool, RandomWallet)>): State
    decreases |clicks|
  {
    if clicks == [] then st
    else RunCorrected(Generate(st, clicks[0].0, clicks[0].1).next, clicks[1..])
  }

  function RunAsWritten(st: State, clicks: seq<(bool, RandomWallet)>): State
    decreases |clicks|
  {
    if clicks == [] then st
    else RunAsWritten(ClickAsWritten(st, clicks[0].0, clicks[0].1).next, clicks[1..])
  }

  /** With the correction, a wallet survives any number of declined dialogs. */
  lemma {:induction false} DeclinesNeverErase(st: State, clicks: seq<(bool, RandomWallet)>)
    requires st.isGenerated && !st.confirmRegenerate
    requires forall i | 0 <= i < |clicks| :: !clicks[i].0
    ensures RunCorrected(st, clicks) == st
  {
    if clicks != [] {
      assert !clicks[0].0;
      DeclinesNeverErase(st, clicks[1..]);
    }
  }

  /** As written, two declined dialogs in a row are enough to lose it. */
  lemma TwoDeclinesEraseAsWritten(w1: RandomWallet, w2: RandomWallet, w3: RandomWallet)
    requires InfoOf(w3) != InfoOf(w1)
    ensures RunAsWritten(Generated(w1), [(false, w2), (false, w3)]).walletInfo != Some(InfoOf(w1))
  {
    var s1 := ClickAsWritten(Generated(w1), false, w2).next;
    var s2 := ClickAsWritten(s1, false, w3).next;
    assert RunAsWritten(s2, []) == s2;
    assert RunAsWritten(s1, [(false, w3)]) == RunAsWritten(s2, []);
  }

  /** toggleDetails: flips showDetails and nothing else. */
  function Toggled(st: State): (r: State)
    ensures r.showDetails == !st.showDetails
    ensures r.(showDetails := st.showDetails) == st
  {
    st.(showDetails := !st.showDetails)
  }

  lemma ToggleTwice(st: State)
    ensures Toggled(Toggled(st)) == st
  {
  }

  /** `showDetails && isGenerated && walletInfo`. */
  predicate DetailsShown(st: State) {
    st.showDetails && st.isGenerated && st.walletInfo.Some?
  }

  /** The states the card can reach: a wallet exactly when one was
      generated, and no confirmation left pending. */
  predicate Coherent(st: State) {
    (st.isGenerated <==> st.walletInfo.Some?) && !st.confirmRegenerate
  }

  lemma InitialCoherent()
    ensures Coherent(Initial) && !DetailsShown(Initial)
  {
  }

  /** Clicks and toggles keep the card coherent; a generation shows the
      details, and in a coherent state they show exactly when showDetails and
      isGenerated are set. */
  lemma StepsKeepCoherent(st: State, answer: bool, w: RandomWallet)
    requires Coherent(st)
    ensures Coherent(Generate(st, answer, w).next)
    ensures Coherent(Toggled(st))
    ensures DetailsShown(st) <==> st.showDetails && st.isGenerated
    ensures !(Generate(st, answer, w).asked && !answer) ==> DetailsShown(Generate(st, answer, w).next)
  {
  }

  /** As written, the pending confirmation is exactly what a declined click
      leaves behind. */
  lemma DeclineBreaksCoherence(st: State, w: RandomWallet)
    requires Coherent(st) && st.isGenerated
    ensures !Coherent(ClickAsWritten(st, false, w).next)
  {
  }

  /** The card's five pieces of state. */
  class WalletCard {
    var walletInfo: Option<WalletInfo>
    var isGenerated: bool
    var confirmRegenerate: bool
    var showDetails: bool
    var copyStatus: string

    function Model(): State
      reads this
    {
      State(walletInfo, isGenerated, confirmRegenerate, showDetails, copyStatus)
    }

    constructor ()
      ensures Model() == Initial
    {
      walletInfo, isGenerated, confirmRegenerate, showDetails, copyStatus := None, false, false, true, "";
    }

    /** handleGenerate, `answer` standing for the confirm dialog's reply. */
    method HandleGenerate(answer: bool, w: RandomWallet) returns (asked: bool)
      modifies this
      ensures Click(asked, Model()) == Generate(old(Model()), answer, w)
    {
      asked := isGenerated && !confirmRegenerate;
      if asked && !answer {
        return;
      }
      walletInfo := Some(InfoOf(w));
      isGenerated := true;
      confirmRegenerate := false;
      showDetails := true;
      copyStatus := "";
    }

    /** The Generate Wallet button, with the correction: no confirmation is
      queued ahead of the dialog. */
    method RegenerateClick(answer: bool, w: RandomWallet) returns (asked: bool)
      modifies this
      ensures Click(asked, Model()) == Generate(old(Model()), answer, w)
    {
      asked := HandleGenerate(answer, w);
    }

    method ToggleDetails()
      modifies this
      ensures Model() == Toggled(old(Model()))
    {
      showDetails := !showDetails;
    }

    /** The clipboard write resolved: `${label} copied!`. */
    method Copied(caption: string)
      modifies this
      ensures Model() == old(Model()).(copyStatus := caption + " copied!")
    {
      copyStatus := caption + " copied!";
    }

    /** The timer that clears the copy status. */
    method ClearCopied()
      modifies this
      ensures Model() == old(Model()).(copyStatus := "")
    {
      copyStatus := "";
    }
  }
}
