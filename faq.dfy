/**
 * The accordion of faq.js: one `active` flag per `.faq-item`, and the
 * click handler that closes every item and then opens the clicked one
 * unless it was the one open.
 */
module Faq {
  /** The flags after a click on item `k`: only `k` can be open, and only if it was closed. */
  function AfterClick(s: seq<bool>, k: nat): seq<bool>
    requires k < |s|
  {
    seq(|s|, i requires 0 <= i < |s| => i == k && !s[k])
  }

  /** The click handler, in place: remember the clicked flag, clear every flag, then open the clicked item if it was closed. */
  method Click(items: array<bool>, k: nat)
    requires k < items.Length
    modifies items
    ensures items[..] == AfterClick(old(items[..]), k)
  {
    var isActive := items[k];
    var i := 0;
    while i < items.Length
      invariant 0 <= i <= items.Length
      invariant forall j :: 0 <= j < i ==> !items[j]
      invariant forall j :: i <= j < items.Length ==> items[j] == old(items[j])
    {
      items[i] := false;
      i := i + 1;
    }
    if !isActive {
      items[k] := true;
    }
  }

  /** After any click at most one item is open, whatever was open before. */
  lemma AtMostOneOpen(s: seq<bool>, k: nat)
    requires k < |s|
    ensures forall i, j :: 0 <= i < j < |s| ==> !(AfterClick(s, k)[i] && AfterClick(s, k)[j])
  {
  }

  /** Clicking the open item closes every item. */
  lemma ClickOpenCloses(s: seq<bool>, k: nat)
    requires k < |s| && s[k]
    ensures forall i :: 0 <= i < |s| ==> !AfterClick(s, k)[i]
  {
  }

  /** Clicking a closed item leaves exactly that item open. */
  lemma ClickClosedOpens(s: seq<bool>, k: nat)
    requires k < |s| && !s[k]
    ensures forall i :: 0 <= i < |s| ==> (AfterClick(s, k)[i] <==> i == k)
  {
  }

  /** The outcome depends only on whether the clicked item was open, not on the other items. */
  lemma ClickIsLocal(s: seq<bool>, t: seq<bool>, k: nat)
    requires k < |s| == |t| && s[k] == t[k]
    ensures AfterClick(s, k) == AfterClick(t, k)
  {
  }

  /** Clicking the same closed item twice closes everything again. */
  lemma ClickTwiceCloses(s: seq<bool>, k: nat)
    requires k < |s| && !s[k]
    ensures AfterClick(AfterClick(s, k), k) == seq(|s|, i => false)
  {
  }
}
