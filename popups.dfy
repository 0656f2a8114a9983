/**
 * The popup stack of awe-ui.js.  Elements are abstract ids (the lookup of
 * an id string by getElementById is not modelled), `visibility` is each
 * element's `style.visibility` as written here, and `dismissed` is the
 * trace of dismissedCallback invocations, each recorded by the element of
 * the entry it belongs to.
 */
module Popups {
  import opened Wrappers

  type ElementId = nat

  datatype Visibility = Visible | Hidden

  /** One `_popupStack` entry; `dismissedCallback` says whether it has one. */
  datatype Entry = Entry(element: ElementId, parentPopup: Option<ElementId>, dismissedCallback: bool)

  /** getTopOfPopupStack: the last entry, or None for an empty stack. */
  function GetTop(stack: seq<Entry>): (r: Option<Entry>)
    ensures r.None? <==> |stack| == 0
    ensures r.Some? ==> r.value == stack[|stack| - 1]
  {
    if |stack| > 0 then Some(stack[|stack| - 1]) else None
  }

  /** The index of the topmost entry for `el`, if there is one. */
  function TopmostIndex(stack: seq<Entry>, el: ElementId): (r: Option<nat>)
    ensures r.Some? ==> r.value < |stack| && stack[r.value].element == el
    ensures r.Some? ==> forall j :: r.value < j < |stack| ==> stack[j].element != el
    ensures r.None? ==> forall j :: 0 <= j < |stack| ==> stack[j].element != el
  {
    if |stack| == 0 then None
    else if stack[|stack| - 1].element == el then Some(|stack| - 1)
    else TopmostIndex(stack[..|stack| - 1], el)
  }

  /**
   * The dismissedCallback invocations made while popping `popped` off the
   * top of the stack: the top entry's first.
   */
  function DismissOrder(popped: seq<Entry>): seq<ElementId>
  {
    if |popped| == 0 then []
    else DismissOrder(popped[1..]) + (if popped[0].dismissedCallback then [popped[0].element] else [])
  }

  /** The visibility map after every entry of `popped` has been hidden, the top entry's first. */
  function HideAll(vis: map<ElementId, Visibility>, popped: seq<Entry>): map<ElementId, Visibility>
  {
    if |popped| == 0 then vis
    else HideAll(vis, popped[1..])[popped[0].element := Hidden]
  }

  /** Popping a stack runs the callbacks from the top down: the upper part's callbacks come first. */
  lemma {:induction false} DismissOrderAppend(lower: seq<Entry>, upper: seq<Entry>)
    ensures DismissOrder(lower + upper) == DismissOrder(upper) + DismissOrder(lower)
    decreases |lower|
  {
    if |lower| == 0 {
      assert lower + upper == upper;
    } else {
      assert (lower + upper)[1..] == lower[1..] + upper;
      DismissOrderAppend(lower[1..], upper);
    }
  }

  /** Exactly the popped entries that have a callback are dismissed, each once, and no other. */
  lemma {:induction false} DismissOrderContents(popped: seq<Entry>)
    ensures |DismissOrder(popped)| <= |popped|
    ensures forall x :: x in DismissOrder(popped) <==>
              exists i :: 0 <= i < |popped| && popped[i].dismissedCallback && popped[i].element == x
  {
    if |popped| > 0 {
      DismissOrderContents(popped[1..]);
      forall x
        ensures x in DismissOrder(popped) <==>
                exists i :: 0 <= i < |popped| && popped[i].dismissedCallback && popped[i].element == x
      {
        if exists i :: 0 <= i < |popped| && popped[i].dismissedCallback && popped[i].element == x {
          var i :| 0 <= i < |popped| && popped[i].dismissedCallback && popped[i].element == x;
          if i > 0 {
            assert popped[1..][i - 1] == popped[i];
          }
        }
        if x in DismissOrder(popped[1..]) {
          var i :| 0 <= i < |popped[1..]| && popped[1..][i].dismissedCallback && popped[1..][i].element == x;
          assert popped[i + 1] == popped[1..][i];
        }
      }
    }
  }

  /**
   * Hiding the popped entries hides each of their elements and leaves the
   * visibility of every other element as it was.
   */
  lemma {:induction false} HideAllEffect(vis: map<ElementId, Visibility>, popped: seq<Entry>, x: ElementId)
    ensures (exists i :: 0 <= i < |popped| && popped[i].element == x) ==>
              x in HideAll(vis, popped) && HideAll(vis, popped)[x] == Hidden
    ensures (forall i :: 0 <= i < |popped| ==> popped[i].element != x) ==>
              (x in HideAll(vis, popped) <==> x in vis) &&
              (x in vis ==> HideAll(vis, popped)[x] == vis[x])
  {
    if |popped| > 0 {
      HideAllEffect(vis, popped[1..], x);
      if exists i :: 1 <= i < |popped| && popped[i].element == x {
        var i :| 1 <= i < |popped| && popped[i].element == x;
        assert popped[1..][i - 1].element == x;
      }
      if forall i :: 0 <= i < |popped| ==> popped[i].element != x {
        forall i | 0 <= i < |popped[1..]|
          ensures popped[1..][i].element != x
        {
          assert popped[1..][i] == popped[i + 1];
        }
      }
    }
  }

  /** How many entries showPopup keeps: everything up to and including the topmost `parent` entry. */
  function KeptBelow(stack: seq<Entry>, parent: Option<ElementId>): (k: nat)
    ensures k <= |stack|
    ensures k > 0 ==> parent.Some? && stack[k - 1].element == parent.value
    ensures parent.Some? ==> forall j :: k <= j < |stack| ==> stack[j].element != parent.value
    ensures parent.None? ==> k == 0
  {
    if parent.None? then 0
    else match TopmostIndex(stack, parent.value)
      case None => 0
      case Some(i) => i + 1
  }

  class PopupStack {
    var stack: seq<Entry>
    var visibility: map<ElementId, Visibility>
    var dismissed: seq<ElementId>

    constructor ()
      ensures stack == [] && visibility == map[] && dismissed == []
    {
      stack := [];
      visibility := map[];
      dismissed := [];
    }

    /**
     * The loop both showPopup and hidePopup run: pop the top entry, hiding
     * it and calling its dismissedCallback, until the top entry's element is
     * `target` or the stack is empty.
     */
    method PopUntil(target: Option<ElementId>) returns (k: nat)
      modifies this
      ensures k <= |old(stack)| && stack == old(stack)[..k]
      ensures k > 0 ==> target.Some? && stack[k - 1].element == target.value
      ensures target.Some? ==> forall j :: k <= j < |old(stack)| ==> old(stack)[j].element != target.value
      ensures dismissed == old(dismissed) + DismissOrder(old(stack)[k..])
      ensures visibility == HideAll(old(visibility), old(stack)[k..])
    {
      k := |stack|;
      while k > 0 && (target.None? || stack[k - 1].element != target.value)
        invariant k <= |old(stack)| && stack == old(stack)[..k]
        invariant target.Some? ==> forall j :: k <= j < |old(stack)| ==> old(stack)[j].element != target.value
        invariant dismissed == old(dismissed) + DismissOrder(old(stack)[k..])
        invariant visibility == HideAll(old(visibility), old(stack)[k..])
        decreases k
      {
        var top := stack[k - 1];
        assert old(stack)[k - 1..][1..] == old(stack)[k..];
        visibility := visibility[top.element := Hidden];
        if top.dismissedCallback {
          dismissed := dismissed + [top.element];
        }
        stack := stack[..k - 1];
        k := k - 1;
      }
    }

    /**
     * showPopup: dismiss every entry above the topmost one for
     * `parentPopup` (all of them when there is none), then make `element`
     * visible and push it.
     */
    method ShowPopup(element: ElementId, dismissedCallback: bool, parentPopup: Option<ElementId>)
      modifies this
      ensures var k := KeptBelow(old(stack), parentPopup);
              && stack == old(stack)[..k] + [Entry(element, parentPopup, dismissedCallback)]
              && dismissed == old(dismissed) + DismissOrder(old(stack)[k..])
              && visibility == HideAll(old(visibility), old(stack)[k..])[element := Visible]
      ensures GetTop(stack) == Some(Entry(element, parentPopup, dismissedCallback))
    {
      var k := PopUntil(parentPopup);
      visibility := visibility[element := Visible];
      stack := stack + [Entry(element, parentPopup, dismissedCallback)];
    }

    /**
     * hidePopup: pop the entries above the topmost one for `element`, then
     * that one, hiding each and calling its dismissedCallback.  When
     * `element` is not on the stack every entry is popped and it throws
     * (`ok == false`).
     */
    method HidePopup(element: ElementId) returns (ok: bool)
      modifies this
      ensures ok <==> TopmostIndex(old(stack), element).Some?
      ensures ok ==> var i := TopmostIndex(old(stack), element).value;
                     && stack == old(stack)[..i]
                     && dismissed == old(dismissed) + DismissOrder(old(stack)[i..])
                     && visibility == HideAll(old(visibility), old(stack)[i..])
      ensures !ok ==> && stack == []
                      && dismissed == old(dismissed) + DismissOrder(old(stack))
                      && visibility == HideAll(old(visibility), old(stack))
    {
      var k := PopUntil(Some(element));
      if k == 0 {
        assert old(stack)[0..] == old(stack);
        return false;
      }
      var top := stack[k - 1];
      assert old(stack)[k - 1..][1..] == old(stack)[k..];
      visibility := visibility[element := Hidden];
      if top.dismissedCallback {
        dismissed := dismissed + [top.element];
      }
      stack := stack[..k - 1];
      ok := true;
    }
  }
}
