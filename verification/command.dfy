/** The command dispatch of todo/command.go: `Execute` runs at most one
    operation on the todo list, chosen by a fixed priority over the parsed
    flags (list, add, edit, toggle, delete). The edit flag `id:new_title` is
    split at its first colon and the id read with `strconv.Atoi`. */
module TodoCommand {
  import opened Wrappers
  import opened GoInt
  import opened TodoStore

  /** The flag value `-1` that means "no toggle / no delete requested". */
  const NOT_REQUESTED := -1

  const BAD_EDIT_FORMAT := "Error, invalid format for edit. Please use id:new_title"
  const BAD_EDIT_INDEX := "Error. Invalid index"

  // ---------------------------------------------------------------------
  // strings.SplitN(s, sep, 2)

  /** `strings.SplitN(s, [sep], 2)`: the whole string when `sep` does not
      occur, otherwise the text before its first occurrence and everything
      after it, further separators included. */
  function SplitN2(s: string, sep: char): (parts: seq<string>)
    ensures |parts| == 1 || |parts| == 2
    ensures |parts| == 2 <==> sep in s
    ensures |parts| == 1 ==> parts[0] == s
    ensures |parts| == 2 ==> s == parts[0] + [sep] + parts[1] && sep !in parts[0]
  {
    if s == [] then [s]
    else if s[0] == sep then [[], s[1..]]
    else
      var rest := SplitN2(s[1..], sep);
      if |rest| == 1 then [s] else [[s[0]] + rest[0], rest[1]]
  }

  /** Splitting a string made of a separator-free head, the separator and any
      tail gives back exactly that head and tail. */
  lemma {:induction false} SplitN2AtFirst(head: string, sep: char, tail: string)
    requires sep !in head
    ensures SplitN2(head + [sep] + tail, sep) == [head, tail]
    decreases |head|
  {
    var s := head + [sep] + tail;
    if head == [] {
      assert s[0] == sep && s[1..] == tail;
    } else {
      assert s[0] == head[0] != sep;
      assert s[1..] == head[1..] + [sep] + tail;
      SplitN2AtFirst(head[1..], sep, tail);
      assert [s[0]] + head[1..] == head;
    }
  }

  // ---------------------------------------------------------------------
  // strconv.Atoi and its reference inverse

  predicate IsDigit(c: char) { '0' <= c <= '9' }

  predicate AllDigits(s: string) { forall i :: 0 <= i < |s| ==> IsDigit(s[i]) }

  /** The value of a string of decimal digits, most significant first. */
  function DigitsValue(s: string): nat
    requires AllDigits(s)
  {
    if s == [] then 0 else DigitsValue(s[..|s| - 1]) * 10 + (s[|s| - 1] as int - '0' as int)
  }

  /** `strconv.Atoi` on a 64-bit platform: an optional `+` or `-`, then one
      or more ASCII digits, whose value must fit in `int`; anything else is
      an error (None). */
  function Atoi(s: string): (r: Option<Int64>)
    ensures r.Some? ==> s != [] && AllDigits(if s[0] == '+' || s[0] == '-' then s[1..] else s)
    ensures r.Some? && s[0] == '-' ==> r.value <= 0
    ensures r.Some? && s[0] != '-' ==> r.value >= 0
    // the value read, and that a lone sign is rejected
    ensures r.Some? ==>
              var digits := if s[0] == '+' || s[0] == '-' then s[1..] else s;
              digits != [] && r.value == (if s[0] == '-' then -(DigitsValue(digits) as int) else DigitsValue(digits))
    // every signed digit string whose value fits in 64 bits is accepted
    ensures (s != [] &&
             var digits := if s[0] == '+' || s[0] == '-' then s[1..] else s;
             digits != [] && AllDigits(digits) &&
             var v := if s[0] == '-' then -(DigitsValue(digits) as int) else DigitsValue(digits);
             MIN_INT64 <= v <= MAX_INT64) ==> r.Some?
  {
    if s == [] then None
    else
      var digits := if s[0] == '+' || s[0] == '-' then s[1..] else s;
      if digits == [] || !AllDigits(digits) then None
      else
        var v := if s[0] == '-' then -(DigitsValue(digits) as int) else DigitsValue(digits);
        if v < MIN_INT64 || v > MAX_INT64 then None else Some(v)
  }

  function DigitChar(d: nat): char
    requires d < 10
  {
    ('0' as int + d) as char
  }

  /** Decimal digits of a natural number, without leading zeros. */
  function Digits(m: nat): (s: string)
    ensures s != [] && AllDigits(s)
  {
    if m < 10 then [DigitChar(m)] else Digits(m / 10) + [DigitChar(m % 10)]
  }

  /** The decimal text of an `int`, as `strconv.Itoa` writes it. */
  function Itoa(n: Int64): string
  {
    if n < 0 then "-" + Digits(-(n as int)) else Digits(n)
  }

  lemma {:induction false} DigitsValueOfDigits(m: nat)
    ensures DigitsValue(Digits(m)) == m
  {
    if m >= 10 {
      var s := Digits(m);
      assert s[..|s| - 1] == Digits(m / 10);
      DigitsValueOfDigits(m / 10);
    }
  }

  /** `Atoi` reads back every `int` written in decimal. */
  lemma AtoiItoa(n: Int64)
    ensures Atoi(Itoa(n)) == Some(n)
  {
    if n < 0 {
      DigitsValueOfDigits(-(n as int));
      assert Itoa(n)[1..] == Digits(-(n as int));
    } else {
      DigitsValueOfDigits(n);
      assert IsDigit(Digits(n)[0]);
    }
  }

  /** A leading zero adds nothing to a digit string's value. */
  lemma {:induction false} DigitsValueLeadingZero(d: string)
    requires AllDigits(d)
    ensures AllDigits("0" + d) && DigitsValue("0" + d) == DigitsValue(d)
    decreases |d|
  {
    if d != [] {
      var z := "0" + d;
      assert z[..|z| - 1] == "0" + d[..|d| - 1];
      DigitsValueLeadingZero(d[..|d| - 1]);
    }
  }

  /** Non-canonical spellings of a number: a `+` sign and leading zeros
      read as the unsigned digits do, and a `-` sign negates their value. */
  lemma AtoiSpellings(d: string)
    requires d != [] && AllDigits(d)
    ensures Atoi("+" + d) == Atoi(d)
    ensures Atoi("0" + d) == Atoi(d)
    ensures Atoi("-" + d).Some? <==> DigitsValue(d) <= -MIN_INT64
    ensures Atoi("-" + d).Some? ==> Atoi("-" + d).value == -(DigitsValue(d) as int)
  {
    assert ("+" + d)[1..] == d && ("-" + d)[1..] == d;
    assert IsDigit(d[0]);
    DigitsValueLeadingZero(d);
  }

  // ---------------------------------------------------------------------
  // CmdFlags and Execute

  /** The outcome of `Execute` besides the new list: it returns normally,
      prints "Invalid command", or ends the process with `os.Exit(code)`
      before the list is saved. */
  datatype Status = Done | InvalidCommand | Exit(code: int)

  /** The parsed `-edit` argument. */
  datatype EditArg = EditArg(index: Int64, title: string)

  /** The `-edit` argument parse: split at the first colon, then read the
      part before it as an integer. A missing colon and a non-integer id are
      both errors. */
  function ParseEdit(arg: string): (r: Result<EditArg, string>)
    ensures ':' !in arg ==> r == Err(BAD_EDIT_FORMAT)
    ensures r.Ok? ==> exists k :: 0 <= k < |arg| && arg[k] == ':' && ':' !in arg[..k] &&
                                 Atoi(arg[..k]) == Some(r.value.index) && r.value.title == arg[k + 1..]
  {
    var parts := SplitN2(arg, ':');
    if |parts| != 2 then Err(BAD_EDIT_FORMAT)
    else match Atoi(parts[0])
      case None => Err(BAD_EDIT_INDEX)
      case Some(index) =>
        assert arg[..|parts[0]|] == parts[0] && arg[|parts[0]|] == ':' && arg[|parts[0]| + 1..] == parts[1];
        Ok(EditArg(index, parts[1]))
  }

  /** An id and any title, colons included, survive the edit syntax. */
  lemma ParseEditRoundTrip(index: Int64, title: string)
    ensures ParseEdit(Itoa(index) + ":" + title) == Ok(EditArg(index, title))
  {
    var id := Itoa(index);
    assert ':' !in id by {
      if index < 0 { assert id[1..] == Digits(-(index as int)) && id[0] == '-'; }
    }
    SplitN2AtFirst(id, ':', title);
    AtoiItoa(index);
  }

  /** `CmdFlags`, as the `flag` package leaves them. */
  datatype CmdFlags = CmdFlags(add: string, del: int, edit: string, toggle: int, list: bool)
  {
    /** What `Execute` does to a list `items` at time `now`: the status and the
        list afterwards. The first requested operation in the order list,
        add, edit, toggle, delete is the only one performed; listing only
        prints. Errors from Edit, Toggle and Delete are ignored. */
    function Effect(items: seq<Todo>, now: Time): (r: (Status, seq<Todo>))
      ensures list ==> r == (Done, items)
      ensures !list && add != "" ==> r == (Done, Added(items, add, now))
      ensures !list && add == "" && edit != "" && ':' !in edit ==> r == (Exit(1), items)
      ensures r.0 != Done ==> r.1 == items
      ensures r.0.Exit? ==> !list && add == "" && edit != ""
      ensures !list && add == "" && edit == "" && toggle != NOT_REQUESTED ==>
                r == (Done, ToggledAt(items, toggle, now))
      ensures !list && add == "" && edit == "" && toggle == NOT_REQUESTED && del != NOT_REQUESTED ==>
                r == (Done, Deleted(items, del))
      ensures r.0 == InvalidCommand <==>
                !list && add == "" && edit == "" && toggle == NOT_REQUESTED && del == NOT_REQUESTED
    {
      if list then (Done, items)
      else if add != "" then (Done, Added(items, add, now))
      else if edit != "" then
        match ParseEdit(edit)
        case Err(_) => (Exit(1), items)
        case Ok(e) => (Done, EditedAt(items, e.index, e.title))
      else if toggle != NOT_REQUESTED then (Done, ToggledAt(items, toggle, now))
      else if del != NOT_REQUESTED then (Done, Deleted(items, del))
      else (InvalidCommand, items)
    }

    /** `Execute`: perform the requested operation on `todos` in place. */
    method Execute(todos: Todos, now: Time) returns (status: Status)
      modifies todos
      ensures (status, todos.items) == Effect(old(todos.items), now)
    {
      if list {
        // Print renders the table on standard output; the list is untouched.
        status := Done;
      } else if add != "" {
        todos.Add(add, now);
        status := Done;
      } else if edit != "" {
        var parts := SplitN2(edit, ':');
        if |parts| != 2 {
          return Exit(1);
        }
        var index := Atoi(parts[0]);
        if index.None? {
          return Exit(1);
        }
        var _ := todos.Edit(index.value, parts[1]);
        status := Done;
      } else if toggle != NOT_REQUESTED {
        var _ := todos.Toggle(toggle, now);
        status := Done;
      } else if del != NOT_REQUESTED {
        var _ := todos.Delete(del);
        status := Done;
      } else {
        status := InvalidCommand;
      }
    }
  }

  /** An edit with an out-of-range id is accepted by `Execute` and leaves the
      list as it was, whatever form of the id `Atoi` accepts ("+1", "01", ...). */
  lemma EditOutOfRangeUnchanged(cf: CmdFlags, items: seq<Todo>, now: Time, id: string, index: Int64, title: string)
    requires !cf.list && cf.add == "" && cf.edit == id + ":" + title
    requires ':' !in id && Atoi(id) == Some(index)
    requires !InRange(items, index)
    ensures cf.Effect(items, now) == (Done, items)
  {
    SplitN2AtFirst(id, ':', title);
  }

  /** A well-formed edit runs normally and changes exactly the title it names. */
  lemma EditRetitles(cf: CmdFlags, items: seq<Todo>, now: Time, id: string, index: Int64, title: string)
    requires !cf.list && cf.add == "" && cf.edit == id + ":" + title
    requires ':' !in id && Atoi(id) == Some(index)
    requires InRange(items, index)
    ensures cf.Effect(items, now) == (Done, items[index := items[index].(title := title)])
  {
    SplitN2AtFirst(id, ':', title);
  }

  /** An edit whose id is not an integer ends the process and changes nothing. */
  lemma EditBadIdExits(cf: CmdFlags, items: seq<Todo>, now: Time, id: string, title: string)
    requires !cf.list && cf.add == "" && cf.edit == id + ":" + title
    requires ':' !in id && Atoi(id).None?
    ensures cf.Effect(items, now) == (Exit(1), items)
  {
    SplitN2AtFirst(id, ':', title);
  }
}
