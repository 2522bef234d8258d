/** Types shared by the screens: remote-control key events, the redraw notices
    an adapter sends its list view, the mutable list an activity shares with
    its adapter, and the decimal rendering of row numbers. */
module Platform {

  datatype Option<T> = None | Some(value: T)

  /** RecyclerView.NO_POSITION: the adapter position of a row that has none. */
  const NoPosition: int := -1

  /** A redraw request sent by an adapter (notifyItemChanged, notifyItemInserted,
      notifyItemRemoved), recorded in the order it is made. */
  datatype Notice = ItemChanged(position: int) | ItemInserted(position: int) | ItemRemoved(position: int)

  datatype KeyAction = ActionDown | ActionUp

  /** The key codes the activities distinguish; every other key is OtherKey. */
  datatype KeyCode =
    | DpadCenter | Enter
    | DpadLeft | DpadRight | DpadUp | DpadDown
    | ChannelUp | ChannelDown
    | Back | Home
    | OtherKey(code: int)

  datatype KeyEvent = KeyEvent(action: KeyAction, keyCode: KeyCode)

  /** DPAD_CENTER and ENTER are handled alike by both activities. */
  predicate IsConfirm(k: KeyCode) {
    k == DpadCenter || k == Enter
  }

  /** The list left by MutableList.removeAt(p): element p is gone, the elements
      before it keep their index and the elements after it move down by one. */
  function RemovedAt<T>(s: seq<T>, p: nat): (r: seq<T>)
    requires p < |s|
    ensures |r| == |s| - 1
    ensures forall k :: 0 <= k < p ==> r[k] == s[k]
    ensures forall k :: p <= k < |r| ==> r[k] == s[k + 1]
    ensures multiset(r) + multiset{s[p]} == multiset(s)
  {
    assert s == s[..p] + [s[p]] + s[p + 1..];
    s[..p] + s[p + 1..]
  }

  /** A Kotlin MutableList<String>, shared by reference between an activity and
      the adapter that displays it. */
  class StringList {
    var items: seq<string>

    constructor (items: seq<string>)
      ensures this.items == items
    {
      this.items := items;
    }

    /** MutableList.add: appends at the end. */
    method Add(item: string)
      modifies this
      ensures items == old(items) + [item]
    {
      items := items + [item];
    }

    /** MutableList.removeAt: the index is not checked by the caller, so the
        model demands it is in range (out of range the list throws). */
    method RemoveAt(position: int)
      requires 0 <= position < |items|
      modifies this
      ensures items == RemovedAt(old(items), position)
    {
      items := RemovedAt(items, position);
    }
  }

  function DigitChar(d: nat): (c: char)
    requires d < 10
    ensures c as int == '0' as int + d
  {
    ('0' as int + d) as char
  }

  /** Int.toString() of a non-negative number: its decimal digits, most
      significant first, without leading zeros. */
  function Decimal(n: nat): (s: string)
    ensures 1 <= |s|
    ensures n < 10 <==> |s| == 1
    ensures AllDigits(s)
    ensures s[0] == '0' ==> n == 0
    decreases n
  {
    if n < 10 then [DigitChar(n)] else Decimal(n / 10) + [DigitChar(n % 10)]
  }

  predicate AllDigits(s: string) {
    forall k :: 0 <= k < |s| ==> '0' <= s[k] <= '9'
  }

  /** The number a string of decimal digits denotes, most significant first. */
  function DigitsValue(s: string): (v: nat)
    requires AllDigits(s)
    decreases |s|
  {
    if s == [] then 0 else DigitsValue(s[..|s| - 1]) * 10 + (s[|s| - 1] as int - '0' as int)
  }

  /** Reading the rendered digits back gives the number. */
  lemma {:induction false} DecimalRoundTrip(n: nat)
    ensures DigitsValue(Decimal(n)) == n
    decreases n
  {
    var s := Decimal(n);
    if n < 10 {
      assert s[..0] == [];
    } else {
      assert s[..|s| - 1] == Decimal(n / 10);
      DecimalRoundTrip(n / 10);
    }
  }

  /** Distinct numbers are rendered as distinct texts. */
  lemma DecimalInjective(a: nat, b: nat)
    requires Decimal(a) == Decimal(b)
    ensures a == b
  {
    DecimalRoundTrip(a);
    DecimalRoundTrip(b);
  }
}
