/** The key paths of a document (`getAllKeyPaths` in packages/cli/src/utils.ts).

    A path such as `a.b[2].c` is listed for every string under an object key that passes a filter.
    The reference is the address of a value, the positions of the children on the way to it; a
    resolver reads a printed path back. */
module KeyPaths {
  import opened Collections
  import opened Wrappers

  datatype Entry = Entry(key: string, value: Json)

  /** `Leaf` stands for numbers, booleans, null and undefined.  Entries are in the order in which
      `Object.entries` gives them. */
  datatype Json = Leaf | Str(text: string) | Arr(items: seq<Json>) | Obj(entries: seq<Entry>)

  type Address = seq<nat>
  type Filter = string -> bool

  // ----- Documents -----

  function Width(j: Json): nat {
    match j
    case Arr(items) => |items|
    case Obj(entries) => |entries|
    case _ => 0
  }

  function Child(j: Json, i: nat): (child: Json)
    requires i < Width(j)
    ensures child < j
  {
    if j.Arr? then j.items[i] else j.entries[i].value
  }

  function At(j: Json, address: Address): Option<Json>
    decreases |address|
  {
    if address == [] then Some(j)
    else if address[0] < Width(j) then At(Child(j, address[0]), address[1..])
    else None
  }

  // ----- Decimal numbers -----

  function Digit(n: nat): char
    requires n < 10
  {
    '0' + n as char
  }

  predicate IsDigit(c: char) {
    '0' <= c <= '9'
  }

  function Decimal(n: nat): (text: string)
    ensures text != [] && forall c | c in text :: IsDigit(c)
  {
    if n < 10 then [Digit(n)] else Decimal(n / 10) + [Digit(n % 10)]
  }

  function Number(text: string): nat
    requires forall c | c in text :: IsDigit(c)
  {
    if text == [] then 0
    else
      var last := text[|text| - 1];
      assert last in text && IsDigit(last);
      Number(text[..|text| - 1]) * 10 + (last as int - '0' as int)
  }

  /** The usual notation: "0", or digits that do not start with a zero. */
  lemma {:induction false} DecimalHasNoLeadingZero(n: nat)
    ensures n == 0 ==> Decimal(n) == "0"
    ensures n > 0 ==> Decimal(n)[0] != '0'
  {
    if n < 10 {
    } else {
      DecimalHasNoLeadingZero(n / 10);
      assert Decimal(n)[0] == Decimal(n / 10)[0];
    }
  }

  lemma {:induction false} NumberOfDecimal(n: nat)
    ensures Number(Decimal(n)) == n
  {
    var text := Decimal(n);
    if n < 10 {
      assert text[..0] == [];
    } else {
      NumberOfDecimal(n / 10);
      assert text[..|text| - 1] == Decimal(n / 10);
    }
  }

  // ----- Listing -----

  /** The path of a child, given the path of the value that holds it. */
  function Label(j: Json, i: nat, current: string): string
    requires i < Width(j)
  {
    if j.Arr? then current + "[" + Decimal(i) + "]"
    else if current == "" then j.entries[i].key
    else current + "." + j.entries[i].key
  }

  /** Keys are joined with dots and indices put in brackets, whatever characters a key has. */
  lemma LabelsAreDotted(items: seq<Json>, entries: seq<Entry>, i: nat, current: string)
    ensures i < |items| ==> Label(Arr(items), i, current) == current + "[" + Decimal(i) + "]"
    ensures i < |entries| && current != "" ==> Label(Obj(entries), i, current) == current + "." + entries[i].key
    ensures i < |entries| ==> Label(Obj(entries), i, "") == entries[i].key
  {
  }

  predicate Selects(j: Json, i: nat, filter: Filter)
    requires i < Width(j)
  {
    j.Obj? && Child(j, i).Str? && filter(Child(j, i).text)
  }

  /** What the traversal of the children of `j` from `i` on adds. */
  function PathsFrom(j: Json, i: nat, current: string, filter: Filter): seq<string>
    requires i <= Width(j)
    decreases j, Width(j) - i
  {
    if i == Width(j) then []
    else
      (if Selects(j, i, filter) then [Label(j, i, current)]
       else PathsFrom(Child(j, i), 0, Label(j, i, current), filter))
      + PathsFrom(j, i + 1, current, filter)
  }

  /** An array that is pushed to. */
  class PathList {
    var list: seq<string>

    constructor ()
      ensures list == []
    {
      list := [];
    }

    method Push(path: string)
      modifies this
      ensures list == old(list) + [path]
    {
      list := list + [path];
    }
  }

  method GetAllKeyPaths(obj: Json, currentPath: string, paths: PathList, valueFilter: Filter)
    modifies paths
    ensures paths.list == old(paths.list) + PathsFrom(obj, 0, currentPath, valueFilter)
    decreases obj
  {
    ghost var all := paths.list + PathsFrom(obj, 0, currentPath, valueFilter);
    if obj.Arr? {
      for index := 0 to |obj.items|
        invariant paths.list + PathsFrom(obj, index, currentPath, valueFilter) == all
      {
        ghost var before := paths.list;
        GetAllKeyPaths(obj.items[index], currentPath + "[" + Decimal(index) + "]", paths, valueFilter);
        Associative(before, PathsFrom(Child(obj, index), 0, Label(obj, index, currentPath), valueFilter),
                   PathsFrom(obj, index + 1, currentPath, valueFilter));
      }
    } else if obj.Obj? {
      for index := 0 to |obj.entries|
        invariant paths.list + PathsFrom(obj, index, currentPath, valueFilter) == all
      {
        ghost var before := paths.list;
        var Entry(key, value) := obj.entries[index];
        var newPath := if currentPath != "" then currentPath + "." + key else key;
        if value.Str? && valueFilter(value.text) {
          paths.Push(newPath);
        } else {
          GetAllKeyPaths(value, newPath, paths, valueFilter);
        }
        Associative(before, paths.list[|before|..], PathsFrom(obj, index + 1, currentPath, valueFilter));
      }
    }
  }

  // ----- Exactly the filtered strings under keys, each once and in document order -----

  /** The printed path of an address. */
  function Printed(j: Json, address: Address, current: string): string
    requires At(j, address).Some?
    decreases |address|
  {
    if address == [] then current
    else Printed(Child(j, address[0]), address[1..], Label(j, address[0], current))
  }

  /** The address of a string that passes the filter and is the value of an object key. */
  ghost predicate IsListed(j: Json, address: Address, filter: Filter) {
    && address != []
    && At(j, address).Some? && At(j, address).value.Str? && filter(At(j, address).value.text)
    && At(j, address[..|address| - 1]).Some? && At(j, address[..|address| - 1]).value.Obj?
  }

  /** Document order. */
  ghost predicate Before(a: Address, b: Address)
    decreases |a|
  {
    b != [] && (a == [] || a[0] < b[0] || (a[0] == b[0] && Before(a[1..], b[1..])))
  }

  ghost predicate InOrder(addresses: seq<Address>) {
    forall x, y | 0 <= x < y < |addresses| :: Before(addresses[x], addresses[y])
  }

  function Under(i: nat, addresses: seq<Address>): (under: seq<Address>)
    ensures |under| == |addresses| && forall x | 0 <= x < |under| :: under[x] == [i] + addresses[x]
  {
    seq(|addresses|, x requires 0 <= x < |addresses| => [i] + addresses[x])
  }

  function AddressesFrom(j: Json, i: nat, filter: Filter): seq<Address>
    requires i <= Width(j)
    decreases j, Width(j) - i
  {
    if i == Width(j) then []
    else
      (if Selects(j, i, filter) then [[i]] else Under(i, AddressesFrom(Child(j, i), 0, filter)))
      + AddressesFrom(j, i + 1, filter)
  }

  lemma OneStep(j: Json, i: nat, current: string)
    requires i < Width(j)
    ensures At(j, [i]) == Some(Child(j, i)) && Printed(j, [i], current) == Label(j, i, current)
  {
    var address: Address := [i];
    assert address[1..] == [];
  }

  lemma ListedInside(j: Json, i: nat, inner: Address, filter: Filter)
    requires i < Width(j)
    ensures IsListed(j, [i] + inner, filter) <==>
      if inner == [] then Selects(j, i, filter) else IsListed(Child(j, i), inner, filter)
  {
    var address := [i] + inner;
    assert address[1..] == inner;
    if inner == [] {
      assert address == [i] && address[..|address| - 1] == [];
      OneStep(j, i, "");
    } else {
      assert address[..|address| - 1] == [i] + inner[..|inner| - 1];
      assert ([i] + inner[..|inner| - 1])[1..] == inner[..|inner| - 1];
    }
  }

  lemma InUnder(i: nat, addresses: seq<Address>, address: Address)
    ensures address in Under(i, addresses) <==> address != [] && address[0] == i && address[1..] in addresses
  {
    if address != [] && address[0] == i && address[1..] in addresses {
      var x :| 0 <= x < |addresses| && addresses[x] == address[1..];
      assert Under(i, addresses)[x] == address;
    }
    assert forall x | 0 <= x < |addresses| :: ([i] + addresses[x])[1..] == addresses[x];
  }

  lemma {:induction false} AddressesAreTheListed(j: Json, i: nat, address: Address, filter: Filter)
    requires i <= Width(j)
    ensures address in AddressesFrom(j, i, filter) <==> IsListed(j, address, filter) && address[0] >= i
    decreases j, Width(j) - i
  {
    if i == Width(j) {
      assert IsListed(j, address, filter) ==> address[0] < Width(j);
    } else {
      AddressesAreTheListed(j, i + 1, address, filter);
      ChildIsTheListed(j, i, address, filter);
      var first := if Selects(j, i, filter) then [[i]] else Under(i, AddressesFrom(Child(j, i), 0, filter));
      var rest := AddressesFrom(j, i + 1, filter);
      assert address in first + rest <==> address in first || address in rest;
    }
  }

  lemma {:induction false} ChildIsTheListed(j: Json, i: nat, address: Address, filter: Filter)
    requires i < Width(j)
    ensures address in (if Selects(j, i, filter) then [[i]] else Under(i, AddressesFrom(Child(j, i), 0, filter)))
            <==> IsListed(j, address, filter) && address[0] == i
    decreases j, Width(j) - i, 0
  {
    InUnder(i, AddressesFrom(Child(j, i), 0, filter), address);
    if address != [] && address[0] == i {
      var inner := address[1..];
      assert address == [i] + inner && (inner == [] ==> address == [i]);
      ListedInside(j, i, inner, filter);
      AddressesAreTheListed(Child(j, i), 0, inner, filter);
    }
  }

  ghost predicate StartFrom(addresses: seq<Address>, i: nat) {
    forall a | a in addresses :: a != [] && a[0] >= i
  }

  lemma UnderInOrder(i: nat, addresses: seq<Address>)
    requires InOrder(addresses)
    ensures InOrder(Under(i, addresses))
  {
    forall x, y | 0 <= x < y < |addresses| ensures Before(Under(i, addresses)[x], Under(i, addresses)[y]) {
      var a, b := addresses[x], addresses[y];
      assert ([i] + a)[1..] == a && ([i] + b)[1..] == b;
    }
  }

  lemma JoinInOrder(i: nat, first: seq<Address>, rest: seq<Address>)
    requires InOrder(first) && InOrder(rest) && StartFrom(rest, i + 1)
    requires forall a | a in first :: a != [] && a[0] == i
    ensures InOrder(first + rest) && StartFrom(first + rest, i)
  {
    var all := first + rest;
    forall x, y | 0 <= x < y < |all| ensures Before(all[x], all[y]) {
      if x < |first| <= y {
        assert all[x] in first && all[y] in rest;
      }
    }
  }

  lemma {:induction false} AddressesInOrder(j: Json, i: nat, filter: Filter)
    requires i <= Width(j)
    ensures InOrder(AddressesFrom(j, i, filter)) && StartFrom(AddressesFrom(j, i, filter), i)
    decreases j, Width(j) - i
  {
    if i == Width(j) {
    } else {
      var inside := AddressesFrom(Child(j, i), 0, filter);
      var first := if Selects(j, i, filter) then [[i]] else Under(i, inside);
      AddressesInOrder(j, i + 1, filter);
      AddressesInOrder(Child(j, i), 0, filter);
      UnderInOrder(i, inside);
      JoinInOrder(i, first, AddressesFrom(j, i + 1, filter));
    }
  }

  ghost predicate Exist(j: Json, addresses: seq<Address>) {
    forall a | a in addresses :: At(j, a).Some?
  }

  function PrintAll(j: Json, addresses: seq<Address>, current: string): (paths: seq<string>)
    requires Exist(j, addresses)
    ensures |paths| == |addresses| && forall x | 0 <= x < |paths| :: paths[x] == Printed(j, addresses[x], current)
  {
    seq(|addresses|, x requires 0 <= x < |addresses| => Printed(j, addresses[x], current))
  }

  lemma PrintUnder(j: Json, i: nat, addresses: seq<Address>, current: string)
    requires i < Width(j) && Exist(Child(j, i), addresses)
    ensures Exist(j, Under(i, addresses))
    ensures PrintAll(j, Under(i, addresses), current) == PrintAll(Child(j, i), addresses, Label(j, i, current))
  {
    forall x | 0 <= x < |addresses|
      ensures At(j, Under(i, addresses)[x]).Some?
      ensures Printed(j, Under(i, addresses)[x], current) == Printed(Child(j, i), addresses[x], Label(j, i, current))
    {
      assert addresses[x] in addresses;
      assert Under(i, addresses)[x][1..] == addresses[x];
    }
  }

  lemma PrintConcat(j: Json, a: seq<Address>, b: seq<Address>, current: string)
    requires Exist(j, a) && Exist(j, b)
    ensures Exist(j, a + b) && PrintAll(j, a + b, current) == PrintAll(j, a, current) + PrintAll(j, b, current)
  {
  }

  lemma {:induction false} PathsAreThePrinted(j: Json, i: nat, current: string, filter: Filter)
    requires i <= Width(j)
    ensures Exist(j, AddressesFrom(j, i, filter))
    ensures PathsFrom(j, i, current, filter) == PrintAll(j, AddressesFrom(j, i, filter), current)
    decreases j, Width(j) - i
  {
    if i == Width(j) {
    } else {
      PathsAreThePrinted(j, i + 1, current, filter);
      var rest := AddressesFrom(j, i + 1, filter);
      if Selects(j, i, filter) {
        OneStep(j, i, current);
        assert PrintAll(j, [[i]], current) == [Label(j, i, current)];
        PrintConcat(j, [[i]], rest, current);
      } else {
        var inside := AddressesFrom(Child(j, i), 0, filter);
        PathsAreThePrinted(Child(j, i), 0, Label(j, i, current), filter);
        PrintUnder(j, i, inside, current);
        PrintConcat(j, Under(i, inside), rest, current);
      }
    }
  }

  /** The listing is the printed form of a strictly increasing list of addresses, which holds exactly the
      addresses of the strings under an object key that pass the filter. */
  lemma ListsTheFilteredStrings(j: Json, filter: Filter) returns (addresses: seq<Address>)
    ensures InOrder(addresses)
    ensures forall a :: a in addresses <==> IsListed(j, a, filter)
    ensures Exist(j, addresses) && PathsFrom(j, 0, "", filter) == PrintAll(j, addresses, "")
  {
    addresses := AddressesFrom(j, 0, filter);
    AddressesInOrder(j, 0, filter);
    PathsAreThePrinted(j, 0, "", filter);
    forall a ensures a in addresses <==> IsListed(j, a, filter) {
      AddressesAreTheListed(j, 0, a, filter);
    }
  }

  // ----- Reading a path back -----

  datatype Step = Key(key: string) | Index(index: nat)

  predicate IsSpecial(c: char) {
    c == '.' || c == '[' || c == ']'
  }

  predicate IsClean(key: string) {
    key != "" && forall c | c in key :: !IsSpecial(c)
  }

  /** The length of the longest prefix without a special character. */
  function Plain(text: string): (n: nat)
    ensures n <= |text| && (n < |text| ==> IsSpecial(text[n])) && forall i | 0 <= i < n :: !IsSpecial(text[i])
  {
    if text == "" || IsSpecial(text[0]) then 0 else 1 + Plain(text[1..])
  }

  function Parse(text: string): Option<seq<Step>>
    decreases |text|
  {
    if text == "" then Some([])
    else if text[0] == '[' then
      var n := Plain(text[1..]);
      var digits := text[1..][..n];
      if n + 1 < |text| && text[n + 1] == ']' && forall c | c in digits :: IsDigit(c)
      then Prepend(Index(Number(digits)), Parse(text[n + 2..]))
      else None
    else if text[0] == ']' then None
    else
      var start := if text[0] == '.' then 1 else 0;
      var n := Plain(text[start..]);
      Prepend(Key(text[start..][..n]), Parse(text[start + n..]))
  }

  function Prepend(step: Step, steps: Option<seq<Step>>): Option<seq<Step>> {
    if steps.None? then None else Some([step] + steps.value)
  }

  function Position(entries: seq<Entry>, key: string): (i: nat)
    ensures i <= |entries| && (i < |entries| ==> entries[i].key == key)
    ensures forall k | 0 <= k < i :: entries[k].key != key
  {
    if entries == [] || entries[0].key == key then 0 else 1 + Position(entries[1..], key)
  }

  function Follow(j: Json, steps: seq<Step>): Option<Json>
    decreases |steps|
  {
    if steps == [] then Some(j)
    else
      match steps[0]
      case Key(key) =>
        if j.Obj? && Position(j.entries, key) < |j.entries|
        then Follow(j.entries[Position(j.entries, key)].value, steps[1..]) else None
      case Index(i) =>
        if j.Arr? && i < |j.items| then Follow(j.items[i], steps[1..]) else None
  }

  function Resolve(j: Json, path: string): Option<Json> {
    var steps := Parse(path);
    if steps.None? then None else Follow(j, steps.value)
  }

  /** Every object has distinct keys, all of them non-empty and free of `.`, `[` and `]`. */
  ghost predicate Clean(j: Json)
    decreases j
  {
    && (j.Obj? ==>
          && (forall i | 0 <= i < |j.entries| :: IsClean(j.entries[i].key))
          && (forall i, k | 0 <= i < k < |j.entries| :: j.entries[i].key != j.entries[k].key))
    && forall i | 0 <= i < Width(j) :: Clean(Child(j, i))
  }

  function StepAt(j: Json, i: nat): Step
    requires i < Width(j)
  {
    if j.Arr? then Index(i) else Key(j.entries[i].key)
  }

  function StepsOf(j: Json, address: Address): seq<Step>
    requires At(j, address).Some?
    decreases |address|
  {
    if address == [] then [] else [StepAt(j, address[0])] + StepsOf(Child(j, address[0]), address[1..])
  }

  lemma {:induction false} FollowingTheSteps(j: Json, address: Address)
    requires Clean(j) && At(j, address).Some?
    ensures Follow(j, StepsOf(j, address)) == At(j, address)
    decreases |address|
  {
    if address == [] {
    } else {
      var i := address[0];
      FollowingTheSteps(Child(j, i), address[1..]);
      var steps := StepsOf(j, address);
      assert steps[1..] == StepsOf(Child(j, i), address[1..]);
      if j.Obj? { assert Position(j.entries, j.entries[i].key) == i; }
    }
  }

  /** One step as it is printed behind a non-empty path. */
  function Text(step: Step): string {
    match step
    case Key(key) => "." + key
    case Index(i) => "[" + Decimal(i) + "]"
  }

  function Tail(steps: seq<Step>): string {
    if steps == [] then "" else Text(steps[0]) + Tail(steps[1..])
  }

  ghost predicate CleanSteps(steps: seq<Step>) {
    forall step | step in steps :: step.Key? ==> IsClean(step.key)
  }

  /** A path with one more step. */
  function Extend(current: string, step: Step): string {
    if step.Key? && current == "" then step.key else current + Text(step)
  }

  function Join(current: string, steps: seq<Step>): string
    decreases |steps|
  {
    if steps == [] then current else Join(Extend(current, steps[0]), steps[1..])
  }

  lemma {:induction false} PrintedIsJoined(j: Json, address: Address, current: string)
    requires Clean(j) && At(j, address).Some?
    ensures CleanSteps(StepsOf(j, address))
    ensures Printed(j, address, current) == Join(current, StepsOf(j, address))
    decreases |address|
  {
    if address == [] {
    } else {
      var i := address[0];
      PrintedIsJoined(Child(j, i), address[1..], Label(j, i, current));
      assert StepsOf(j, address)[1..] == StepsOf(Child(j, i), address[1..]);
      LabelExtends(j, i, current);
    }
  }

  lemma LabelExtends(j: Json, i: nat, current: string)
    requires i < Width(j)
    ensures Label(j, i, current) == Extend(current, StepAt(j, i))
  {
    if j.Arr? {
      assert current + "[" + Decimal(i) + "]" == current + ("[" + Decimal(i) + "]");
    } else {
      assert current + "." + j.entries[i].key == current + ("." + j.entries[i].key);
    }
  }

  lemma {:induction false} JoinIsTail(current: string, steps: seq<Step>)
    requires current != ""
    ensures Join(current, steps) == current + Tail(steps)
    decreases |steps|
  {
    if steps != [] {
      JoinIsTail(Extend(current, steps[0]), steps[1..]);
      Associative(current, Text(steps[0]), Tail(steps[1..]));
    } else {
      assert current + "" == current;
    }
  }

  lemma {:induction false} PlainOf(plain: string, rest: string)
    requires forall c | c in plain :: !IsSpecial(c)
    requires rest == "" || IsSpecial(rest[0])
    ensures Plain(plain + rest) == |plain| && (plain + rest)[..|plain|] == plain && (plain + rest)[|plain|..] == rest
    decreases |plain|
  {
    if plain == "" {
      assert plain + rest == rest;
    } else {
      PlainOf(plain[1..], rest);
      assert (plain + rest)[1..] == plain[1..] + rest;
    }
  }

  lemma TailStartsSpecial(steps: seq<Step>)
    ensures Tail(steps) == "" || Tail(steps)[0] == '.' || Tail(steps)[0] == '['
  {
  }

  lemma ParseIndex(i: nat, rest: string)
    ensures Parse("[" + Decimal(i) + "]" + rest) == Prepend(Index(i), Parse(rest))
  {
    var text := "[" + Decimal(i) + "]" + rest;
    PlainOf(Decimal(i), "]" + rest);
    assert text[1..] == Decimal(i) + ("]" + rest);
    NumberOfDecimal(i);
    assert text[|Decimal(i)| + 2..] == rest;
  }

  lemma ParseKey(key: string, rest: string)
    requires IsClean(key) && (rest == "" || IsSpecial(rest[0]))
    ensures Parse(key + rest) == Prepend(Key(key), Parse(rest))
  {
    PlainOf(key, rest);
    var text := key + rest;
    assert text[0] == key[0] && key[0] in key && text[0..] == text;
  }

  lemma ParseDottedKey(key: string, rest: string)
    requires IsClean(key) && (rest == "" || IsSpecial(rest[0]))
    ensures Parse("." + key + rest) == Prepend(Key(key), Parse(rest))
  {
    PlainOf(key, rest);
    var text := "." + key + rest;
    assert text[1..] == key + rest && text[1 + |key|..] == rest;
  }

  lemma {:induction false} ParsingATail(steps: seq<Step>)
    requires CleanSteps(steps)
    ensures Parse(Tail(steps)) == Some(steps)
    decreases |steps|
  {
    if steps == [] {
    } else {
      var rest := Tail(steps[1..]);
      ParsingATail(steps[1..]);
      TailStartsSpecial(steps[1..]);
      assert steps == [steps[0]] + steps[1..];
      match steps[0]
      case Key(key) => ParseDottedKey(key, rest);
      case Index(i) => ParseIndex(i, rest);
    }
  }

  lemma ParsingAJoin(steps: seq<Step>)
    requires CleanSteps(steps)
    ensures Parse(Join("", steps)) == Some(steps)
  {
    if steps != [] {
      var rest := steps[1..];
      JoinIsTail(Extend("", steps[0]), rest);
      ParsingATail(rest);
      TailStartsSpecial(rest);
      assert steps == [steps[0]] + rest;
      match steps[0]
      case Key(key) => ParseKey(key, Tail(rest));
      case Index(i) =>
        assert "" + Text(steps[0]) == Text(steps[0]);
        ParseIndex(i, Tail(rest));
    }
  }

  /** Printing the address of any value of a clean document, and reading it back, finds the value. */
  lemma ResolvesWhatIsPrinted(j: Json, address: Address)
    requires Clean(j) && At(j, address).Some?
    ensures Parse(Printed(j, address, "")) == Some(StepsOf(j, address))
    ensures Resolve(j, Printed(j, address, "")) == At(j, address)
  {
    PrintedIsJoined(j, address, "");
    ParsingAJoin(StepsOf(j, address));
    FollowingTheSteps(j, address);
  }

  /** Different addresses of a clean document print differently. */
  lemma PrintingIsInjective(j: Json, a: Address, b: Address)
    requires Clean(j) && At(j, a).Some? && At(j, b).Some? && Printed(j, a, "") == Printed(j, b, "")
    ensures a == b
  {
    ResolvesWhatIsPrinted(j, a);
    ResolvesWhatIsPrinted(j, b);
    StepsAreInjective(j, a, b);
  }

  ghost predicate ResolvesTo(j: Json, path: string, filter: Filter) {
    var found := Resolve(j, path);
    found.Some? && found.value.Str? && filter(found.value.text)
  }

  /** In a clean document the listed paths are distinct, each resolves to a string that passes the
      filter, and every such string under a key is resolved by one of them. */
  lemma ListedPathsResolve(j: Json, filter: Filter)
    requires Clean(j)
    ensures var paths := PathsFrom(j, 0, "", filter);
      && (forall x, y | 0 <= x < y < |paths| :: paths[x] != paths[y])
      && (forall path | path in paths :: ResolvesTo(j, path, filter))
      && (forall a | IsListed(j, a, filter) :: exists path :: path in paths && Resolve(j, path) == At(j, a))
  {
    var addresses := ListsTheFilteredStrings(j, filter);
    var paths := PathsFrom(j, 0, "", filter);
    forall x, y | 0 <= x < y < |paths| ensures paths[x] != paths[y] {
      BeforeIsStrict(addresses[x]);
      assert addresses[x] in addresses && addresses[y] in addresses;
      if paths[x] == paths[y] { PrintingIsInjective(j, addresses[x], addresses[y]); }
    }
    forall path | path in paths ensures ResolvesTo(j, path, filter) {
      var x :| 0 <= x < |paths| && paths[x] == path;
      assert addresses[x] in addresses;
      ResolvesWhatIsPrinted(j, addresses[x]);
    }
    forall a | IsListed(j, a, filter) ensures exists path :: path in paths && Resolve(j, path) == At(j, a) {
      var x :| 0 <= x < |addresses| && addresses[x] == a;
      ResolvesWhatIsPrinted(j, a);
      assert paths[x] in paths;
    }
  }

  lemma {:induction false} BeforeIsStrict(a: Address)
    ensures !Before(a, a)
    decreases |a|
  {
    if a == [] {
    } else {
      BeforeIsStrict(a[1..]);
    }
  }

  lemma {:induction false} StepsAreInjective(j: Json, a: Address, b: Address)
    requires Clean(j) && At(j, a).Some? && At(j, b).Some? && StepsOf(j, a) == StepsOf(j, b)
    ensures a == b
    decreases |a|
  {
    if a != [] && b != [] {
      assert StepsOf(j, a)[0] == StepAt(j, a[0]) && StepsOf(j, b)[0] == StepAt(j, b[0]);
      assert a[0] == b[0];
      assert StepsOf(j, a)[1..] == StepsOf(Child(j, a[0]), a[1..]);
      assert StepsOf(j, b)[1..] == StepsOf(Child(j, b[0]), b[1..]);
      StepsAreInjective(Child(j, a[0]), a[1..], b[1..]);
      assert a == [a[0]] + a[1..] && b == [b[0]] + b[1..];
    }
  }

  /** The condition on keys is exact: the path of a lone key resolves precisely if the key is clean. */
  lemma LoneKeyResolvesIff(key: string, text: string)
    ensures var j := Obj([Entry(key, Str(text))]);
      && PathsFrom(j, 0, "", _ => true) == [key]
      && (Resolve(j, key) == Some(Str(text)) <==> IsClean(key))
  {
    var j := Obj([Entry(key, Str(text))]);
    assert PathsFrom(j, 1, "", _ => true) == [];
    assert Label(j, 0, "") == key;
    if IsClean(key) {
      assert key + "" == key && [Key(key)] + [] == [Key(key)];
      ParseKey(key, "");
      assert Parse(key) == Some([Key(key)]);
      var steps := [Key(key)];
      assert Position(j.entries, key) == 0 && steps[1..] == [];
      assert Follow(j, steps) == Follow(Str(text), steps[1..]);
    }
    if Resolve(j, key) == Some(Str(text)) {
      assert Parse(key).value[0] == Key(key);
      FirstKeyIsClean(key);
    }
  }

  lemma FirstKeyIsClean(key: string)
    requires Parse(key).Some? && Parse(key).value != [] && Parse(key).value[0] == Key(key)
    ensures IsClean(key)
  {
    var n := Plain(key);
    assert |key[1..][..Plain(key[1..])]| < |key|;
    assert key[0] != '.';
    assert key[0..] == key && n == |key|;
    forall c | c in key ensures !IsSpecial(c) {
      var i :| 0 <= i < n && key[i] == c;
    }
  }

  /** Two strings under different keys may be listed under one path. */
  lemma DottedKeysCollide(first: string, second: string)
    ensures PathsFrom(Obj([Entry("a.b", Str(first)), Entry("a", Obj([Entry("b", Str(second))]))]), 0, "", _ => true)
            == ["a.b", "a.b"]
  {
    var inner := Obj([Entry("b", Str(second))]);
    var j := Obj([Entry("a.b", Str(first)), Entry("a", inner)]);
    assert PathsFrom(inner, 1, "a", _ => true) == [];
    assert Label(inner, 0, "a") == "a.b" && Label(j, 0, "") == "a.b" && Label(j, 1, "") == "a";
    assert PathsFrom(inner, 0, "a", _ => true) == ["a.b"];
    assert PathsFrom(j, 2, "", _ => true) == [];
    assert PathsFrom(j, 1, "", _ => true) == ["a.b"];
  }
}
