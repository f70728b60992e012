/** The global mode store of store.ts: a single mutable `mode` field,
    initially TREE_SHAPE, overwritten by toggleMode and setMode. */
module Store {

  /** The two literals 'SCATTERED' | 'TREE_SHAPE'. */
  datatype Mode = Scattered | TreeShape

  /** The argument each store action hands to zustand's `set`: toggleMode
      passes an updater of the old state, setMode a fixed new value. */
  datatype Action = Toggle | SetTo(target: Mode)

  /** The mode after `set` applies an action to the current mode. */
  function Apply(a: Action, m: Mode): (r: Mode)
    ensures a.Toggle? ==> r != m
    ensures a.SetTo? ==> r == a.target
  {
    match a
    case Toggle => if m == Scattered then TreeShape else Scattered
    case SetTo(target) => target
  }

  /** toggleMode maps SCATTERED to TREE_SHAPE and TREE_SHAPE to SCATTERED. */
  lemma ToggleSwaps()
    ensures Apply(Toggle, Scattered) == TreeShape
    ensures Apply(Toggle, TreeShape) == Scattered
  {
  }

  /** Toggling twice restores the original mode. */
  lemma ToggleInvolution(m: Mode)
    ensures Apply(Toggle, Apply(Toggle, m)) == m
  {
  }

  /** setMode(t) leaves t whatever the prior mode, so applying it twice is
      the same as applying it once. */
  lemma SetIdempotent(t: Mode, m: Mode)
    ensures Apply(SetTo(t), m) == t
    ensures Apply(SetTo(t), Apply(SetTo(t), m)) == Apply(SetTo(t), m)
  {
  }

  /** The mode after a whole sequence of actions, first action first. */
  function Run(actions: seq<Action>, m: Mode): Mode
    decreases |actions|
  {
    if actions == [] then m else Run(actions[1..], Apply(actions[0], m))
  }

  /** n presses of the toggle button return the original mode exactly when
      n is even. */
  lemma {:induction false} TogglesParity(n: nat, m: Mode)
    ensures Run(seq(n, _ => Toggle), m) == (if n % 2 == 0 then m else Apply(Toggle, m))
  {
    if n > 0 {
      var s := seq(n, _ => Toggle);
      assert s[1..] == seq(n - 1, _ => Toggle);
      TogglesParity(n - 1, Apply(Toggle, m));
    }
  }

  /** The store object: one field, written only by its two actions. */
  class TreeStore {
    var mode: Mode

    /** The store starts in TREE_SHAPE. */
    constructor ()
      ensures mode == TreeShape
    {
      mode := TreeShape;
    }

    method ToggleMode()
      modifies this`mode
      ensures mode == Apply(Toggle, old(mode))
    {
      mode := Apply(Toggle, mode);
    }

    method SetMode(m: Mode)
      modifies this`mode
      ensures mode == Apply(SetTo(m), old(mode))
    {
      mode := Apply(SetTo(m), mode);
    }
  }
}
