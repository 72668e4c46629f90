/** The paths of the strings in a tree of objects and arrays, written as `key.key[0].key`. */
module KeyPaths {
  datatype Member = Member(key: string, value: Json)

  datatype Json =
    | Text(text: string)
    | Atom                           // a number, a boolean, null
    | List(items: seq<Json>)
    | Object(members: seq<Member>)   // in the order of its entries

  // ---------- Collecting paths ----------

  class Paths {
    var found: seq<string>

    constructor ()
      ensures found == []
    {
      found := [];
    }

    method Push(path: string)
      modifies this
      ensures found == old(found) + [path]
    {
      found := found + [path];
    }
  }

  method GetAllKeyPaths(obj: Json, currentPath: string, paths: Paths, valueFilter: string -> bool)
    modifies paths
    ensures paths.found == old(paths.found) + Rendered(currentPath, Flattened(obj, valueFilter))
    decreases obj
  {
    match obj
    case List(items) =>
      for index := 0 to |items|
        invariant paths.found == old(paths.found) + Rendered(currentPath, FlattenedItems(obj, index, valueFilter))
      {
        OneMoreItem(obj, index, currentPath, valueFilter, old(paths.found));
        GetAllKeyPaths(items[index], currentPath + "[" + Digits(index) + "]", paths, valueFilter);
      }
    case Object(members) =>
      for i := 0 to |members|
        invariant paths.found == old(paths.found) + Rendered(currentPath, FlattenedMembers(obj, i, valueFilter))
      {
        var key, value := members[i].key, members[i].value;
        var newPath := if currentPath != "" then currentPath + "." + key else key;
        OneMoreMember(obj, i, currentPath, valueFilter, old(paths.found));
        if value.Text? && valueFilter(value.text) {
          paths.Push(newPath);
        } else {
          GetAllKeyPaths(value, newPath, paths, valueFilter);
        }
      }
    case _ =>
  }

  // ---------- Paths as such ----------

  datatype Step = Key(key: string) | Index(index: nat)

  type Path = seq<Step>

  function Under(step: Step, paths: seq<Path>): (r: seq<Path>)
    ensures |r| == |paths| && forall i :: 0 <= i < |paths| ==> r[i] == [step] + paths[i]
  {
    seq(|paths|, i requires 0 <= i < |paths| => [step] + paths[i])
  }

  /** In order, the paths of those members of objects that are strings passing the filter. */
  function Flattened(obj: Json, valueFilter: string -> bool): seq<Path>
    decreases obj, 1, 0
  {
    match obj
    case List(items) => FlattenedItems(obj, |items|, valueFilter)
    case Object(members) => FlattenedMembers(obj, |members|, valueFilter)
    case _ => []
  }

  function FlattenedItems(obj: Json, n: nat, valueFilter: string -> bool): seq<Path>
    requires obj.List? && n <= |obj.items|
    decreases obj, 0, n
  {
    if n == 0 then []
    else FlattenedItems(obj, n - 1, valueFilter) + Under(Index(n - 1), Flattened(obj.items[n - 1], valueFilter))
  }

  function FlattenedMembers(obj: Json, n: nat, valueFilter: string -> bool): seq<Path>
    requires obj.Object? && n <= |obj.members|
    decreases obj, 0, n
  {
    if n == 0 then []
    else FlattenedMembers(obj, n - 1, valueFilter) + MemberPaths(obj.members[n - 1], valueFilter)
  }

  function MemberPaths(member: Member, valueFilter: string -> bool): seq<Path>
    decreases member, 2, 0
  {
    if member.value.Text? && valueFilter(member.value.text) then [[Key(member.key)]]
    else Under(Key(member.key), Flattened(member.value, valueFilter))
  }

  // ---------- Rendering ----------

  function Digit(d: nat): char
    requires d < 10
  {
    "0123456789"[d]
  }

  function Digits(n: nat): (s: string)
    ensures s != ""
  {
    if n < 10 then [Digit(n)] else Digits(n / 10) + [Digit(n % 10)]
  }

  function RenderStep(currentPath: string, step: Step): string {
    match step
    case Key(key) => if currentPath != "" then currentPath + "." + key else key
    case Index(index) => currentPath + "[" + Digits(index) + "]"
  }

  function Render(currentPath: string, path: Path): string
    decreases path
  {
    if path == [] then currentPath else Render(RenderStep(currentPath, path[0]), path[1..])
  }

  function Rendered(currentPath: string, paths: seq<Path>): seq<string>
  {
    seq(|paths|, i requires 0 <= i < |paths| => Render(currentPath, paths[i]))
  }

  lemma RenderedTogether(currentPath: string, a: seq<Path>, b: seq<Path>)
    ensures Rendered(currentPath, a + b) == Rendered(currentPath, a) + Rendered(currentPath, b)
  {
  }

  lemma RenderedUnder(currentPath: string, step: Step, paths: seq<Path>)
    ensures Rendered(currentPath, Under(step, paths)) == Rendered(RenderStep(currentPath, step), paths)
  {
    forall i | 0 <= i < |paths|
      ensures Render(currentPath, [step] + paths[i]) == Render(RenderStep(currentPath, step), paths[i])
    {
      assert ([step] + paths[i])[1..] == paths[i];
    }
  }

  lemma OneMoreItem(obj: Json, n: nat, currentPath: string, valueFilter: string -> bool, start: seq<string>)
    requires obj.List? && n < |obj.items|
    ensures start + Rendered(currentPath, FlattenedItems(obj, n + 1, valueFilter))
         == start + Rendered(currentPath, FlattenedItems(obj, n, valueFilter))
            + Rendered(currentPath + "[" + Digits(n) + "]", Flattened(obj.items[n], valueFilter))
  {
    RenderedUnder(currentPath, Index(n), Flattened(obj.items[n], valueFilter));
    RenderedTogether(currentPath, FlattenedItems(obj, n, valueFilter),
        Under(Index(n), Flattened(obj.items[n], valueFilter)));
  }

  function RenderedMember(currentPath: string, member: Member, valueFilter: string -> bool): seq<string> {
    var newPath := RenderStep(currentPath, Key(member.key));
    if member.value.Text? && valueFilter(member.value.text) then [newPath]
    else Rendered(newPath, Flattened(member.value, valueFilter))
  }

  lemma OneMoreMember(obj: Json, n: nat, currentPath: string, valueFilter: string -> bool, start: seq<string>)
    requires obj.Object? && n < |obj.members|
    ensures start + Rendered(currentPath, FlattenedMembers(obj, n + 1, valueFilter))
         == start + Rendered(currentPath, FlattenedMembers(obj, n, valueFilter))
             + RenderedMember(currentPath, obj.members[n], valueFilter)
  {
    RenderedMemberPaths(currentPath, obj.members[n], valueFilter);
    RenderedTogether(currentPath, FlattenedMembers(obj, n, valueFilter), MemberPaths(obj.members[n], valueFilter));
  }

  lemma RenderedMemberPaths(currentPath: string, member: Member, valueFilter: string -> bool)
    ensures Rendered(currentPath, MemberPaths(member, valueFilter)) == RenderedMember(currentPath, member, valueFilter)
  {
    if member.value.Text? && valueFilter(member.value.text) {
      assert [Key(member.key)][1..] == [];
      assert Render(currentPath, [Key(member.key)]) == RenderStep(currentPath, Key(member.key));
    } else {
      RenderedUnder(currentPath, Key(member.key), Flattened(member.value, valueFilter));
    }
  }

  // ---------- Reading paths back ----------

  predicate Separator(c: char) {
    c == '.' || c == '['
  }

  /** Neither empty nor with a character that paths are put together with. */
  predicate Plain(key: string) {
    key != "" && forall i :: 0 <= i < |key| ==> !Separator(key[i])
  }

  predicate PlainSteps(path: Path) {
    forall i :: 0 <= i < |path| ==> path[i].Key? ==> Plain(path[i].key)
  }

  /** How far the text goes without a separator. */
  function Span(text: string): (n: nat)
    ensures n <= |text|
  {
    if text == "" || Separator(text[0]) then 0 else 1 + Span(text[1..])
  }

  function DigitSpan(text: string): (n: nat)
    ensures n <= |text|
  {
    if text == "" || text[0] == ']' then 0 else 1 + DigitSpan(text[1..])
  }

  function Value(digits: string): nat {
    if digits == "" then 0
    else 10 * Value(digits[..|digits| - 1]) + DigitValue(digits[|digits| - 1])
  }

  function DigitValue(c: char): nat {
    if '0' <= c <= '9' then c as nat - '0' as nat else 0
  }

  function Parse(text: string): Path {
    if text == "" || Separator(text[0]) then ParseRest(text)
    else [Key(text[..Span(text)])] + ParseRest(text[Span(text)..])
  }

  function ParseRest(text: string): Path
    decreases |text|
  {
    if text == "" then []
    else
      var tail := text[1..];
      if text[0] == '[' then
        var n := DigitSpan(tail);
        [Index(Value(tail[..n]))] + (if n < |tail| then ParseRest(tail[n + 1..]) else [])
      else
        var n := Span(tail);
        [Key(tail[..n])] + ParseRest(tail[n..])
  }

  // ---------- Rendering loses nothing ----------

  /** What comes after the first step, or after a non-empty path so far. */
  function Tail(path: Path): string {
    if path == [] then ""
    else
      match path[0]
      case Key(key) => "." + (key + Tail(path[1..]))
      case Index(index) => "[" + (Digits(index) + ("]" + Tail(path[1..])))
  }

  lemma Regroup(a: string, b: string, c: string)
    ensures a + b + c == a + (b + c)
  {
  }

  lemma {:induction false} RenderIsTail(currentPath: string, path: Path)
    requires currentPath != ""
    ensures Render(currentPath, path) == currentPath + Tail(path)
    decreases path
  {
    if path != [] {
      var rest := Tail(path[1..]);
      RenderIsTail(RenderStep(currentPath, path[0]), path[1..]);
      match path[0]
      case Key(key) =>
        Regroup(currentPath + ".", key, rest);
        Regroup(currentPath, ".", key + rest);
      case Index(index) =>
        Regroup(currentPath + "[" + Digits(index), "]", rest);
        Regroup(currentPath + "[", Digits(index), "]" + rest);
        Regroup(currentPath, "[", Digits(index) + ("]" + rest));
    }
  }

  lemma TailStarts(path: Path)
    ensures Tail(path) == "" || Separator(Tail(path)[0])
  {
  }

  lemma {:induction false} SpanOfKey(key: string, rest: string)
    requires forall i :: 0 <= i < |key| ==> !Separator(key[i])
    requires rest == "" || Separator(rest[0])
    ensures Span(key + rest) == |key|
  {
    if key != "" {
      assert (key + rest)[1..] == key[1..] + rest;
      SpanOfKey(key[1..], rest);
    } else {
      assert key + rest == rest;
    }
  }

  lemma {:induction false} DigitsAreDigits(n: nat, i: nat)
    requires i < |Digits(n)|
    ensures '0' <= Digits(n)[i] <= '9'
  {
    if n >= 10 && i < |Digits(n / 10)| {
      DigitsAreDigits(n / 10, i);
    }
  }

  lemma {:induction false} ValueOfDigits(n: nat)
    ensures Value(Digits(n)) == n
  {
    if n >= 10 {
      ValueOfDigits(n / 10);
      assert Digits(n)[..|Digits(n)| - 1] == Digits(n / 10);
    } else {
      assert Digits(n)[..0] == "";
    }
  }

  lemma {:induction false} SpanOfDigits(digits: string, rest: string)
    requires forall i :: 0 <= i < |digits| ==> '0' <= digits[i] <= '9'
    ensures DigitSpan(digits + ("]" + rest)) == |digits|
  {
    if digits == "" {
      assert (digits + ("]" + rest))[0] == ']';
    } else {
      assert (digits + ("]" + rest))[1..] == digits[1..] + ("]" + rest);
      SpanOfDigits(digits[1..], rest);
    }
  }

  lemma SplitsAt(a: string, b: string)
    ensures (a + b)[..|a|] == a && (a + b)[|a|..] == b
  {
  }

  lemma ParsesKeyAt(text: string, key: string, rest: string)
    requires text != "" && text[0] != '[' && text[1..] == key + rest && Span(key + rest) == |key|
    ensures ParseRest(text) == [Key(key)] + ParseRest(rest)
  {
    SplitsAt(key, rest);
  }

  lemma ParsesKey(key: string, rest: string)
    requires Span(key + rest) == |key|
    ensures ParseRest("." + (key + rest)) == [Key(key)] + ParseRest(rest)
  {
    SplitsAt(".", key + rest);
    ParsesKeyAt("." + (key + rest), key, rest);
  }

  lemma ParsesIndexAt(text: string, digits: string, rest: string)
    requires text != "" && text[0] == '[' && text[1..] == digits + ("]" + rest)
    requires DigitSpan(digits + ("]" + rest)) == |digits|
    ensures ParseRest(text) == [Index(Value(digits))] + ParseRest(rest)
  {
    SplitsAt(digits, "]" + rest);
    assert (digits + ("]" + rest))[|digits| + 1..] == rest;
  }

  lemma ParsesIndex(index: nat, rest: string)
    ensures ParseRest("[" + (Digits(index) + ("]" + rest))) == [Index(index)] + ParseRest(rest)
  {
    var digits := Digits(index);
    SpanOfIndex(index, rest);
    ValueOfDigits(index);
    SplitsAt("[", digits + ("]" + rest));
    ParsesIndexAt("[" + (digits + ("]" + rest)), digits, rest);
  }

  lemma SpanOfIndex(index: nat, rest: string)
    ensures DigitSpan(Digits(index) + ("]" + rest)) == |Digits(index)|
  {
    forall i | 0 <= i < |Digits(index)|
      ensures '0' <= Digits(index)[i] <= '9'
    {
      DigitsAreDigits(index, i);
    }
    SpanOfDigits(Digits(index), rest);
  }

  lemma {:induction false} TailParsesBack(path: Path)
    requires PlainSteps(path)
    ensures ParseRest(Tail(path)) == path
  {
    if path != [] {
      assert path == [path[0]] + path[1..];
      TailParsesBack(path[1..]);
      match path[0]
      case Key(key) =>
        TailStarts(path[1..]);
        SpanOfKey(key, Tail(path[1..]));
        ParsesKey(key, Tail(path[1..]));
      case Index(index) => ParsesIndex(index, Tail(path[1..]));
    }
  }

  /** Paths over plain keys can be read back. */
  lemma ParsesBack(path: Path)
    requires PlainSteps(path)
    ensures Parse(Render("", path)) == path
  {
    if path != [] {
      var rest := Tail(path[1..]);
      assert path == [path[0]] + path[1..];
      match path[0]
      case Key(key) =>
        RenderIsTail(key, path[1..]);
        TailStarts(path[1..]);
        SpanOfKey(key, rest);
        TailParsesBack(path[1..]);
        SplitsAt(key, rest);
      case Index(index) =>
        FirstIndex(index, path[1..]);
        TailParsesBack(path);
    }
  }

  lemma FirstIndex(index: nat, path: Path)
    ensures Render("", [Index(index)] + path) == Tail([Index(index)] + path)
  {
    var first := RenderStep("", Index(index));
    assert ([Index(index)] + path)[1..] == path;
    RenderIsTail(first, path);
    Regroup("[" + Digits(index), "]", Tail(path));
    Regroup("[", Digits(index), "]" + Tail(path));
    assert first == "[" + Digits(index) + "]";
  }

  /** Each step adds its part to the text so far: a key after a dot, unless it comes first,
      an index in brackets. */
  lemma {:induction false} RenderGoesOn(currentPath: string, path: Path, step: Step)
    ensures var before := Render(currentPath, path);
            Render(currentPath, path + [step]) ==
              match step
              case Key(key) => if before == "" then key else before + "." + key
              case Index(index) => before + "[" + Digits(index) + "]"
    decreases path
  {
    if path == [] {
      assert path + [step] == [step] && [step][1..] == [];
    } else {
      assert (path + [step])[0] == path[0] && (path + [step])[1..] == path[1..] + [step];
      RenderGoesOn(RenderStep(currentPath, path[0]), path[1..], step);
    }
  }

  /** Indices are in decimal digits, with the value of the index and no zero in front. */
  lemma {:induction false} DigitsAreDecimal(n: nat)
    ensures forall i :: 0 <= i < |Digits(n)| ==> '0' <= Digits(n)[i] <= '9'
    ensures Digits(n)[0] == '0' <==> n == 0
    ensures n == 0 ==> Digits(n) == "0"
    ensures Value(Digits(n)) == n
  {
    ValueOfDigits(n);
    if n >= 10 {
      DigitsAreDecimal(n / 10);
    }
  }

  // ---------- Which paths are found ----------

  /** Every key is plain. */
  ghost predicate PlainKeys(obj: Json)
    decreases obj
  {
    match obj
    case List(items) => forall i :: 0 <= i < |items| ==> PlainKeys(items[i])
    case Object(members) => forall i :: 0 <= i < |members| ==> Plain(members[i].key) && PlainKeys(members[i].value)
    case _ => true
  }

  /** Objects have each key once. */
  ghost predicate DistinctKeys(obj: Json)
    decreases obj
  {
    match obj
    case List(items) => forall i :: 0 <= i < |items| ==> DistinctKeys(items[i])
    case Object(members) =>
      && (forall i :: 0 <= i < |members| ==> DistinctKeys(members[i].value))
      && forall i, j :: 0 <= i < j < |members| ==> members[i].key != members[j].key
    case _ => true
  }

  /** Following the path leads to a member that is a string passing the filter. */
  ghost predicate LeadsToText(obj: Json, path: Path, valueFilter: string -> bool)
    decreases obj
  {
    path != [] &&
    match obj
    case List(items) => path[0].Index? && path[0].index < |items|
        && LeadsToText(items[path[0].index], path[1..], valueFilter)
    case Object(members) =>
      && path[0].Key?
      && exists i ::
           0 <= i < |members| && members[i].key == path[0].key && MemberLeads(members[i], path, valueFilter)
    case _ => false
  }

  ghost predicate MemberLeads(member: Member, path: Path, valueFilter: string -> bool)
    requires path != []
    decreases member
  {
    if member.value.Text? then |path| == 1 && valueFilter(member.value.text)
    else LeadsToText(member.value, path[1..], valueFilter)
  }

  lemma UnderContains(step: Step, paths: seq<Path>, path: Path)
    ensures path in Under(step, paths) <==> path != [] && path[0] == step && path[1..] in paths
  {
    if path != [] && path[0] == step && path[1..] in paths {
      var i :| 0 <= i < |paths| && paths[i] == path[1..];
      assert Under(step, paths)[i] == path;
    }
    if path in Under(step, paths) {
      var i :| 0 <= i < |paths| && Under(step, paths)[i] == path;
      assert path[1..] == paths[i];
    }
  }

  /** Exactly the paths that lead to such strings are found. */
  lemma {:induction false} FindsExactly(obj: Json, path: Path, valueFilter: string -> bool)
    ensures path in Flattened(obj, valueFilter) <==> LeadsToText(obj, path, valueFilter)
    decreases obj, 1, 0
  {
    match obj
    case List(items) => FindsExactlyItems(obj, |items|, path, valueFilter);
    case Object(members) => FindsExactlyMembers(obj, |members|, path, valueFilter);
    case _ =>
  }

  lemma {:induction false} FindsExactlyItems(obj: Json, n: nat, path: Path, valueFilter: string -> bool)
    requires obj.List? && n <= |obj.items|
    ensures path in FlattenedItems(obj, n, valueFilter) <==>
            path != [] && path[0].Index? && path[0].index < n
                && LeadsToText(obj.items[path[0].index], path[1..], valueFilter)
    decreases obj, 0, n
  {
    if n > 0 {
      FindsExactlyItems(obj, n - 1, path, valueFilter);
      UnderContains(Index(n - 1), Flattened(obj.items[n - 1], valueFilter), path);
      if path != [] {
        FindsExactly(obj.items[n - 1], path[1..], valueFilter);
      }
    }
  }

  lemma MemberPathsExactly(member: Member, path: Path, valueFilter: string -> bool)
    requires path != [] ==> (path[1..] in Flattened(member.value, valueFilter) <==>
        LeadsToText(member.value, path[1..], valueFilter))
    ensures path in MemberPaths(member, valueFilter) <==>
            path != [] && path[0] == Key(member.key) && MemberLeads(member, path, valueFilter)
  {
    if member.value.Text? {
      assert Flattened(member.value, valueFilter) == [];
      assert Under(Key(member.key), []) == [];
      if |path| == 1 {
        assert path == [path[0]];
      }
    } else {
      UnderContains(Key(member.key), Flattened(member.value, valueFilter), path);
    }
  }

  lemma {:induction false} FindsExactlyMembers(obj: Json, n: nat, path: Path, valueFilter: string -> bool)
    requires obj.Object? && n <= |obj.members|
    ensures path in FlattenedMembers(obj, n, valueFilter) <==>
            path != [] && path[0].Key?
            && exists i :: 0 <= i < n && obj.members[i].key == path[0].key
                && MemberLeads(obj.members[i], path, valueFilter)
    decreases obj, 0, n
  {
    if n > 0 {
      var member := obj.members[n - 1];
      FindsExactlyMembers(obj, n - 1, path, valueFilter);
      if path != [] {
        FindsExactly(member.value, path[1..], valueFilter);
      }
      MemberPathsExactly(member, path, valueFilter);
    }
  }

  // ---------- Found once, and told apart ----------

  ghost predicate Distinct<T>(xs: seq<T>) {
    forall i, j :: 0 <= i < j < |xs| ==> xs[i] != xs[j]
  }

  lemma DistinctTogether<T>(a: seq<T>, b: seq<T>)
    requires Distinct(a) && Distinct(b) && forall x :: x in a ==> x !in b
    ensures Distinct(a + b)
  {
    forall i, j | 0 <= i < j < |a + b|
      ensures (a + b)[i] != (a + b)[j]
    {
      if i < |a| <= j {
        assert a[i] in a && b[j - |a|] in b;
      }
    }
  }

  lemma DistinctUnder(step: Step, paths: seq<Path>)
    requires Distinct(paths)
    ensures Distinct(Under(step, paths))
  {
    forall i, j | 0 <= i < j < |paths|
      ensures Under(step, paths)[i] != Under(step, paths)[j]
    {
      assert Under(step, paths)[i][1..] == paths[i] && Under(step, paths)[j][1..] == paths[j];
    }
  }

  lemma {:induction false} FoundOnce(obj: Json, valueFilter: string -> bool)
    requires DistinctKeys(obj)
    ensures Distinct(Flattened(obj, valueFilter))
    decreases obj, 1, 0
  {
    match obj
    case List(items) => ItemsFoundOnce(obj, |items|, valueFilter);
    case Object(members) => MembersFoundOnce(obj, |members|, valueFilter);
    case _ =>
  }

  lemma {:induction false} ItemsFoundOnce(obj: Json, n: nat, valueFilter: string -> bool)
    requires obj.List? && n <= |obj.items| && DistinctKeys(obj)
    ensures Distinct(FlattenedItems(obj, n, valueFilter))
    decreases obj, 0, n
  {
    if n > 0 {
      var before, last := FlattenedItems(obj, n - 1, valueFilter),
          Under(Index(n - 1), Flattened(obj.items[n - 1], valueFilter));
      ItemsFoundOnce(obj, n - 1, valueFilter);
      FoundOnce(obj.items[n - 1], valueFilter);
      DistinctUnder(Index(n - 1), Flattened(obj.items[n - 1], valueFilter));
      forall path | path in before
        ensures path !in last
      {
        FindsExactlyItems(obj, n - 1, path, valueFilter);
      }
      DistinctTogether(before, last);
    }
  }

  lemma {:induction false} MembersFoundOnce(obj: Json, n: nat, valueFilter: string -> bool)
    requires obj.Object? && n <= |obj.members| && DistinctKeys(obj)
    ensures Distinct(FlattenedMembers(obj, n, valueFilter))
    decreases obj, 0, n
  {
    if n > 0 {
      var member := obj.members[n - 1];
      var before, last := FlattenedMembers(obj, n - 1, valueFilter), MemberPaths(member, valueFilter);
      MembersFoundOnce(obj, n - 1, valueFilter);
      FoundOnce(member.value, valueFilter);
      DistinctUnder(Key(member.key), Flattened(member.value, valueFilter));
      forall path | path in before
        ensures path !in last
      {
        FindsExactlyMembers(obj, n - 1, path, valueFilter);
      }
      DistinctTogether(before, last);
    }
  }

  /** Of two paths in the tree, the one whose string comes first, going through items and
      members in order. */
  ghost predicate Before(obj: Json, a: Path, b: Path)
    decreases obj
  {
    a != [] && b != [] &&
    match obj
    case List(items) =>
      && a[0].Index? && b[0].Index?
      && (a[0].index < b[0].index
          || (a[0].index == b[0].index < |items| && Before(items[a[0].index], a[1..], b[1..])))
    case Object(members) =>
      exists i, j ::
        && 0 <= i <= j < |members| && a[0] == Key(members[i].key) && b[0] == Key(members[j].key)
        && (i < j || Before(members[i].value, a[1..], b[1..]))
    case _ => false
  }

  /** Strings are found in the order they are in. */
  lemma {:induction false} FoundInOrder(obj: Json, valueFilter: string -> bool, i: nat, j: nat)
    requires i < j < |Flattened(obj, valueFilter)|
    ensures Before(obj, Flattened(obj, valueFilter)[i], Flattened(obj, valueFilter)[j])
    decreases obj, 1, 0
  {
    match obj
    case List(items) => ItemsInOrder(obj, |items|, valueFilter, i, j);
    case Object(members) => MembersInOrder(obj, |members|, valueFilter, i, j);
    case _ =>
  }

  lemma {:induction false} ItemsInOrder(obj: Json, n: nat, valueFilter: string -> bool, i: nat, j: nat)
    requires obj.List? && n <= |obj.items| && i < j < |FlattenedItems(obj, n, valueFilter)|
    ensures Before(obj, FlattenedItems(obj, n, valueFilter)[i], FlattenedItems(obj, n, valueFilter)[j])
    decreases obj, 0, n
  {
    var before := FlattenedItems(obj, n - 1, valueFilter);
    var last := Flattened(obj.items[n - 1], valueFilter);
    if j < |before| {
      ItemsInOrder(obj, n - 1, valueFilter, i, j);
    } else if i < |before| {
      assert before[i] in before;
      FindsExactlyItems(obj, n - 1, before[i], valueFilter);
    } else {
      FoundInOrder(obj.items[n - 1], valueFilter, i - |before|, j - |before|);
      assert ([Index(n - 1)] + last[i - |before|])[1..] == last[i - |before|];
      assert ([Index(n - 1)] + last[j - |before|])[1..] == last[j - |before|];
    }
  }

  lemma {:induction false} MembersInOrder(obj: Json, n: nat, valueFilter: string -> bool, i: nat, j: nat)
    requires obj.Object? && n <= |obj.members| && i < j < |FlattenedMembers(obj, n, valueFilter)|
    ensures Before(obj, FlattenedMembers(obj, n, valueFilter)[i], FlattenedMembers(obj, n, valueFilter)[j])
    decreases obj, 0, n
  {
    var before := FlattenedMembers(obj, n - 1, valueFilter);
    var member := obj.members[n - 1];
    var last := MemberPaths(member, valueFilter);
    if j < |before| {
      MembersInOrder(obj, n - 1, valueFilter, i, j);
    } else {
      assert last[j - |before|][0] == Key(member.key);
      if i < |before| {
        assert before[i] in before;
        FindsExactlyMembers(obj, n - 1, before[i], valueFilter);
      } else {
        var paths := Flattened(member.value, valueFilter);
        FoundInOrder(member.value, valueFilter, i - |before|, j - |before|);
        assert last[i - |before|][1..] == paths[i - |before|] && last[j - |before|][1..] == paths[j - |before|];
      }
    }
  }

  lemma {:induction false} FoundPathsArePlain(obj: Json, path: Path, valueFilter: string -> bool)
    requires PlainKeys(obj) && LeadsToText(obj, path, valueFilter)
    ensures PlainSteps(path)
    decreases obj
  {
    assert path == [path[0]] + path[1..];
    match obj
    case List(items) => FoundPathsArePlain(items[path[0].index], path[1..], valueFilter);
    case Object(members) =>
      var i :| 0 <= i < |members| && members[i].key == path[0].key && MemberLeads(members[i], path, valueFilter);
      if !members[i].value.Text? {
        FoundPathsArePlain(members[i].value, path[1..], valueFilter);
      }
  }

  /** With plain keys the rendered paths are all different, and each, read back, leads to
      the string it was made for. */
  lemma PathsToldApart(obj: Json, valueFilter: string -> bool)
    requires PlainKeys(obj) && DistinctKeys(obj)
    ensures Distinct(Rendered("", Flattened(obj, valueFilter)))
    ensures forall text :: text in Rendered("", Flattened(obj, valueFilter)) ==>
        LeadsToText(obj, Parse(text), valueFilter)
  {
    var paths := Flattened(obj, valueFilter);
    FoundOnce(obj, valueFilter);
    forall i | 0 <= i < |paths|
      ensures Parse(Render("", paths[i])) == paths[i] && LeadsToText(obj, paths[i], valueFilter)
    {
      assert paths[i] in paths;
      FindsExactly(obj, paths[i], valueFilter);
      FoundPathsArePlain(obj, paths[i], valueFilter);
      ParsesBack(paths[i]);
    }
  }

  /** Other keys may render alike. */
  lemma DottedKeysCollide(a: string, b: string)
    requires a != "" && b != ""
    ensures var paths := [[Key(a + "." + b)], [Key(a), Key(b)]];
            paths[0] != paths[1] && Render("", paths[0]) == Render("", paths[1])
  {
    var nested: Path := [Key(a), Key(b)];
    assert nested[1..] == [Key(b)] && [Key(b)][1..] == [];
    assert Render("", nested) == Render(a, [Key(b)]);
    assert [Key(a + "." + b)][1..] == [];
  }
}
