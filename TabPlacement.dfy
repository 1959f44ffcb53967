/** Where a new tab is opened: the `tabPosition` preference, its in-memory
    mirror (popup.js:6, 113-142) and the insertion index (popup.js:207). */
module TabPlacement {
  import opened Base

  const Before: string := "before"
  const After: string := "after"

  /** JavaScript truthiness of the stored `tabPosition`: a missing key or an
      empty string is falsy. */
  predicate Truthy(stored: Option<string>)
  {
    stored.Some? && stored.value != ""
  }

  /** The value `loadTabPosition` settles on: the stored preference when the
      read succeeds and yields a truthy value, `'after'` otherwise. */
  function LoadedPosition(stored: Option<string>, read: StorageResult): (p: string)
    ensures read == StorageFailed || !Truthy(stored) ==> p == After
    ensures read == StorageOk && Truthy(stored) ==> p == stored.value
    ensures p != ""
  {
    if read == StorageOk && Truthy(stored) then stored.value else After
  }

  /** The index passed to `chrome.tabs.create`: the current tab's own index
      places the new tab to its left, one more places it to its right. */
  function InsertionIndex(position: string, tabIndex: nat): (index: nat)
    ensures position == Before <==> index == tabIndex
    ensures position != Before <==> index == tabIndex + 1
  {
    if position == Before then tabIndex else tabIndex + 1
  }

  /** The tab strip after inserting `t` at `index` (which is at most `|strip|`). */
  function InsertAt<T>(strip: seq<T>, index: nat, t: T): (r: seq<T>)
    requires index <= |strip|
    ensures |r| == |strip| + 1 && r[index] == t
    ensures forall i :: 0 <= i < index ==> r[i] == strip[i]
    ensures forall i :: index < i < |r| ==> r[i] == strip[i - 1]
  {
    strip[..index] + [t] + strip[index..]
  }

  /** The new tab lands immediately beside the current one: to its left under
      `'before'`, to its right under any other preference. */
  lemma NewTabBesideCurrent<T>(strip: seq<T>, current: nat, position: string, t: T)
    requires current < |strip|
    ensures var index := InsertionIndex(position, current);
            var r := InsertAt(strip, index, t);
            r[index] == t &&
            (position == Before ==> index + 1 < |r| && r[index + 1] == strip[current]) &&
            (position != Before ==> 0 < index && r[index - 1] == strip[current])
  {
  }

  /** The two worked examples: current index 5. */
  lemma InsertionIndexExamples()
    ensures InsertionIndex(Before, 5) == 5 && InsertionIndex(After, 5) == 6
  {
  }

  class Preference {
    /** The module-level `tabPosition` mirror used for every placement. */
    var position: string
    /** The `tabPosition` key in extension storage (`None` when never set). */
    var stored: Option<string>

    /** Popup start-up: the mirror starts as `'after'` (popup.js:6). */
    constructor (stored: Option<string>)
      ensures position == After && this.stored == stored
    {
      position := After;
      this.stored := stored;
    }

    /** `loadTabPosition()`: never fails; falls back to `'after'`. */
    method LoadTabPosition(read: StorageResult) returns (loaded: string)
      modifies this
      ensures loaded == position == LoadedPosition(stored, read)
      ensures stored == old(stored)
    {
      if read == StorageFailed {
        position := After;
        return After;
      }
      if Truthy(stored) {
        position := stored.value;
      } else {
        position := After;
      }
      loaded := position;
    }

    /** `saveTabPosition(p)`: the mirror is set before the write and stays
        set whatever happens; the result is true only when the write and the
        verifying read that follows it both succeed. */
    method SaveTabPosition(p: string, write: StorageResult, verify: StorageResult) returns (saved: bool)
      modifies this
      ensures position == p
      ensures stored == if write == StorageOk then Some(p) else old(stored)
      ensures saved <==> write == StorageOk && verify == StorageOk
    {
      position := p;
      if write == StorageFailed {
        return false;
      }
      stored := Some(p);
      if verify == StorageFailed {
        return false;
      }
      return true;
    }

    /** The index used by `openInNewTab` for a tab at `tabIndex`. */
    method NewTabIndex(tabIndex: nat) returns (index: nat)
      ensures position == Before <==> index == tabIndex
      ensures position != Before <==> index == tabIndex + 1
    {
      index := InsertionIndex(position, tabIndex);
    }
  }

  /** A save whose write succeeded, followed by a load in a later popup
      session, gives the saved preference back (an empty one loads as
      `'after'`), whatever the verifying read after the write did. */
  method SaveThenLoad(pref: Preference, p: string, verify: StorageResult) returns (loaded: string)
    modifies pref
    ensures p != "" ==> loaded == p
    ensures p == "" ==> loaded == After
    ensures pref.position == loaded && pref.stored == Some(p)
  {
    var _ := pref.SaveTabPosition(p, StorageOk, verify);
    loaded := pref.LoadTabPosition(StorageOk);
  }

  /** A save followed by opening a new tab in the same session: placement
      follows the in-memory mirror, so the new preference takes effect even
      when its write failed and the stored key kept its old value. */
  method PlaceAfterSave(pref: Preference, p: string, write: StorageResult, verify: StorageResult, tabIndex: nat)
    returns (saved: bool, index: nat)
    modifies pref
    ensures index == InsertionIndex(p, tabIndex)
    ensures pref.position == p
    ensures pref.stored == if write == StorageOk then Some(p) else old(pref.stored)
    ensures saved <==> write == StorageOk && verify == StorageOk
  {
    saved := pref.SaveTabPosition(p, write, verify);
    index := pref.NewTabIndex(tabIndex);
  }

  /** An empty store, or a failed read, loads as `'after'`. */
  lemma LoadDefaults(stored: Option<string>)
    ensures LoadedPosition(None, StorageOk) == After
    ensures LoadedPosition(stored, StorageFailed) == After
  {
  }
}
