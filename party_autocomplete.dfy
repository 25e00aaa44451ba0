/**
 * The party autocomplete box: the typed query, whether the list is open, the
 * fetched parties and the highlighted index, moved by the arrow keys and
 * the mouse, with Enter and clicks choosing a party.
 */
module PartyAutocomplete {
  import opened Wrappers

  /** A party as the API lists it. */
  datatype ApiParty = ApiParty(id: string, name: string, code: Option<string>)

  /** What the box reports to its owner through `onChange`. */
  datatype PartyOption = PartyOption(id: Option<string>, name: string, code: Option<string>)

  datatype Key = ArrowDown | ArrowUp | Enter | Escape | OtherKey

  function Min(a: int, b: int): int { if a <= b then a else b }
  function Max(a: int, b: int): int { if a >= b then a else b }

  /** ArrowDown: `Math.min((i < 0 ? -1 : i) + 1, len - 1)`. */
  function Down(i: int, len: nat): (r: int)
    ensures r <= len - 1
    ensures len == 0 ==> r == -1
    ensures len > 0 && i < 0 ==> r == 0
    ensures len > 0 && 0 <= i < len - 1 ==> r == i + 1
    ensures len > 0 && i >= len - 1 ==> r == len - 1
  {
    Min((if i < 0 then -1 else i) + 1, len - 1)
  }

  /** ArrowUp: `Math.max((i < 0 ? len : i) - 1, 0)`. */
  function Up(i: int, len: nat): (r: int)
    ensures r >= 0
    ensures i < 0 && len > 0 ==> r == len - 1
    ensures i < 0 && len == 0 ==> r == 0
    ensures i > 0 ==> r == i - 1
    ensures i == 0 ==> r == 0
  {
    Max((if i < 0 then len else i) - 1, 0)
  }

  /** The party Enter chooses: `list[activeIndex]` when the index is not negative and the item exists. */
  function EnterChoice(list: seq<ApiParty>, activeIndex: int): (r: Option<ApiParty>)
    ensures r.Some? <==> 0 <= activeIndex < |list|
    ensures r.Some? ==> r.value == list[activeIndex]
  {
    if 0 <= activeIndex < |list| then Some(list[activeIndex]) else None
  }

  /**
   * The highlighted index is -1 or a position in the list, except that
   * ArrowUp on an empty list leaves it at 0.
   */
  predicate IndexOk(list: seq<ApiParty>, activeIndex: int) {
    -1 <= activeIndex && (activeIndex < |list| || (list == [] && activeIndex == 0))
  }

  /** The arrow keys keep the index in range. */
  lemma ArrowsKeepIndexOk(list: seq<ApiParty>, i: int)
    requires IndexOk(list, i)
    ensures IndexOk(list, Down(i, |list|)) && IndexOk(list, Up(i, |list|))
    ensures list != [] ==> 0 <= Down(i, |list|) < |list| && 0 <= Up(i, |list|) < |list|
  {
  }

  /** On an empty list ArrowUp moves the index to 0, yet Enter then chooses nothing. */
  lemma EmptyListUpThenEnter()
    ensures Up(-1, 0) == 0
    ensures EnterChoice([], Up(-1, 0)).None?
  {
  }

  /** The index after `n` ArrowDown presses. */
  function Presses(i: int, len: nat, n: nat): int
    decreases n
  {
    if n == 0 then i else Presses(Down(i, len), len, n - 1)
  }

  /**
   * From an in-range index, `n` ArrowDown presses move the highlight `n`
   * places down, stopping at the last item.
   */
  lemma {:induction false} PressesDown(i: int, len: nat, n: nat)
    requires len > 0 && -1 <= i < len
    ensures Presses(i, len, n) == Min(i + n, len - 1)
    decreases n
  {
    if n > 0 {
      PressesDown(Down(i, len), len, n - 1);
    }
  }

  /** The box's state, as the component keeps it. */
  class Box {
    var q: string
    var open: bool
    var list: seq<ApiParty>
    var activeIndex: int
    /** Every value reported through `onChange`, oldest first. */
    var reported: seq<PartyOption>

    ghost predicate Valid()
      reads this
    {
      IndexOk(list, activeIndex)
    }

    constructor (value: string)
      ensures q == value && !open && list == [] && activeIndex == -1 && reported == []
      ensures Valid()
    {
      q := value;
      open := false;
      list := [];
      activeIndex := -1;
      reported := [];
    }

    /** The parent's `value` changed: the input follows it. */
    method SyncValue(value: string)
      modifies this
      ensures q == value
      ensures open == old(open) && list == old(list) && activeIndex == old(activeIndex) && reported == old(reported)
    {
      q := value;
    }

    /** Typing: the query follows the input and the raw text is reported as a name. */
    method Type(text: string)
      modifies this
      ensures q == text && reported == old(reported) + [PartyOption(None, text, None)]
      ensures open == old(open) && list == old(list) && activeIndex == old(activeIndex)
    {
      q := text;
      reported := reported + [PartyOption(None, text, None)];
    }

    method Focus()
      modifies this
      ensures open
      ensures q == old(q) && list == old(list) && activeIndex == old(activeIndex) && reported == old(reported)
    {
      open := true;
    }

    /** A mouse press outside the box closes the list. */
    method PressOutside()
      modifies this
      ensures !open
      ensures q == old(q) && list == old(list) && activeIndex == old(activeIndex) && reported == old(reported)
    {
      open := false;
    }

    /** A fetch answered: the list is replaced and the first item, if any, is highlighted. */
    method Fetched(data: seq<ApiParty>)
      modifies this
      ensures list == data && activeIndex == (if data != [] then 0 else -1)
      ensures Valid()
      ensures q == old(q) && open == old(open) && reported == old(reported)
    {
      list := data;
      activeIndex := if |data| > 0 then 0 else -1;
    }

    /** `choose(p)`: reports the party, puts its name in the input and closes the list. */
    method Choose(p: ApiParty)
      modifies this
      ensures reported == old(reported) + [PartyOption(Some(p.id), p.name, p.code)]
      ensures q == p.name && !open
      ensures list == old(list) && activeIndex == old(activeIndex)
    {
      reported := reported + [PartyOption(Some(p.id), p.name, p.code)];
      q := p.name;
      open := false;
    }

    /** The mouse enters the row of item `i`. */
    method MouseEnter(i: int)
      requires 0 <= i < |list|
      modifies this
      ensures activeIndex == i
      ensures Valid()
      ensures q == old(q) && open == old(open) && list == old(list) && reported == old(reported)
    {
      activeIndex := i;
    }

    /**
     * `onKeyDown`: ignored while the list is closed; the arrows move the
     * highlight, Enter chooses the highlighted party if there is one, and
     * Escape closes the list.
     */
    method KeyDown(key: Key)
      requires Valid()
      modifies this
      ensures Valid()
      ensures list == old(list)
      ensures !old(open) ==> q == old(q) && open == old(open) && activeIndex == old(activeIndex) && reported == old(reported)
      ensures old(open) && key == ArrowDown ==>
        activeIndex == Down(old(activeIndex), |list|) && q == old(q) && open && reported == old(reported)
      ensures old(open) && key == ArrowUp ==>
        activeIndex == Up(old(activeIndex), |list|) && q == old(q) && open && reported == old(reported)
      ensures old(open) && key == Enter && EnterChoice(list, old(activeIndex)).Some? ==>
        var p := EnterChoice(list, old(activeIndex)).value;
        reported == old(reported) + [PartyOption(Some(p.id), p.name, p.code)] && q == p.name && !open
        && activeIndex == old(activeIndex)
      ensures old(open) && key == Enter && EnterChoice(list, old(activeIndex)).None? ==>
        q == old(q) && open && activeIndex == old(activeIndex) && reported == old(reported)
      ensures old(open) && key == Escape ==>
        !open && q == old(q) && activeIndex == old(activeIndex) && reported == old(reported)
      ensures old(open) && key == OtherKey ==>
        q == old(q) && open && activeIndex == old(activeIndex) && reported == old(reported)
    {
      if !open {
        return;
      }
      ArrowsKeepIndexOk(list, activeIndex);
      if key == ArrowDown {
        activeIndex := Down(activeIndex, |list|);
      } else if key == ArrowUp {
        activeIndex := Up(activeIndex, |list|);
      } else if key == Enter && activeIndex >= 0 && activeIndex < |list| {
        Choose(list[activeIndex]);
      } else if key == Escape {
        open := false;
      }
    }
  }
}
