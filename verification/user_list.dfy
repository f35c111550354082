/** The contact list screen (`UserListScreen`): loading the profiles, the optional
    caller-supplied filter, and the avatar initials and colour of each row. */
module UserList {
  import opened Gateway
  import Text

  /** A profile as the list query selects it. */
  datatype User = User(id: string, fullName: Option<string>, avatarUrl: Option<string>)

  // ---------------------------------------------------------------------------
  // Loading and filtering

  /** The list kept after the fetch: a query error or a `null` result both leave
      it empty; otherwise it is the rows as returned. */
  function LoadedUsers(fetched: Outcome<Option<seq<User>>>): (users: seq<User>)
    ensures fetched.Err? ==> users == []
    ensures fetched.Ok? && fetched.value.None? ==> users == []
    ensures fetched.Ok? && fetched.value.Some? ==> users == fetched.value.value
  {
    match fetched
    case Err(_) => []
    case Ok(data) => if data.Some? then data.value else []
  }

  /** `users.filter(keep)`. */
  function Filter(s: seq<User>, keep: User -> bool): (r: seq<User>)
    ensures |r| <= |s|
    ensures forall i :: 0 <= i < |r| ==> keep(r[i])
    ensures forall x :: x in r <==> x in s && keep(x)
    decreases |s|
  {
    if |s| == 0 then []
    else
      var rest := Filter(s[1..], keep);
      assert forall x :: x in s <==> x == s[0] || x in s[1..];
      if keep(s[0]) then [s[0]] + rest else rest
  }

  /** Filtering respects order: it works piecewise on a concatenation. */
  lemma {:induction false} FilterAppend(a: seq<User>, b: seq<User>, keep: User -> bool)
    ensures Filter(a + b, keep) == Filter(a, keep) + Filter(b, keep)
    decreases |a|
  {
    if |a| == 0 {
      assert a + b == b;
    } else {
      assert (a + b)[1..] == a[1..] + b;
      FilterAppend(a[1..], b, keep);
    }
  }

  /** A list whose every element passes comes through unchanged. */
  lemma {:induction false} FilterKeepsAll(s: seq<User>, keep: User -> bool)
    requires forall i :: 0 <= i < |s| ==> keep(s[i])
    ensures Filter(s, keep) == s
    decreases |s|
  {
    if |s| > 0 {
      FilterKeepsAll(s[1..], keep);
      assert [s[0]] + s[1..] == s;
    }
  }

  /** Filtering twice is filtering once. */
  lemma FilterIdempotent(s: seq<User>, keep: User -> bool)
    ensures Filter(Filter(s, keep), keep) == Filter(s, keep)
  {
    FilterKeepsAll(Filter(s, keep), keep);
  }

  /** `filteredUsers`: the users the caller's filter accepts, in fetched order, or
      all of them when no filter is given. */
  function Displayed(users: seq<User>, filterUser: Option<User -> bool>): (shown: seq<User>)
    ensures filterUser.None? ==> shown == users
    ensures filterUser.Some? ==> shown == Filter(users, filterUser.value)
    ensures filterUser.Some? ==> forall u :: u in shown <==> u in users && filterUser.value(u)
    ensures |shown| <= |users|
  {
    match filterUser
    case None => users
    case Some(keep) => Filter(users, keep)
  }

  // ---------------------------------------------------------------------------
  // Initials

  /** The last space-separated word of a string. */
  function LastWord(t: string): string {
    var parts := Text.Split(t, ' ');
    parts[|parts| - 1]
  }

  /** The last word is what follows the last space, when there is one. */
  lemma {:induction false} LastWordFollowsLastSpace(t: string)
    ensures ' ' !in t ==> LastWord(t) == t
    ensures ' ' in t ==> exists j :: 0 <= j < |t| && t[j] == ' ' && LastWord(t) == t[j + 1..] && ' ' !in t[j + 1..]
    decreases |t|
  {
    Text.SplitSingle(t, ' ');
    if ' ' in t {
      var rest := t[1..];
      assert t == [t[0]] + rest;
      Text.SplitSingle(rest, ' ');
      if ' ' in rest {
        LastWordFollowsLastSpace(rest);
        assert LastWord(t) == LastWord(rest);
        var j :| 0 <= j < |rest| && rest[j] == ' ' && LastWord(rest) == rest[j + 1..] && ' ' !in rest[j + 1..];
        assert t[j + 1] == ' ' && t[j + 2..] == rest[j + 1..];
      } else {
        assert t[0] == ' ';
        assert LastWord(t) == rest;
      }
    }
  }

  /** A trimmed, non-empty name: neither end is white space. */
  predicate Trimmed(t: string) {
    |t| > 0 && !Text.IsWhite(t[0]) && !Text.IsWhite(t[|t| - 1])
  }

  /** The initials of a trimmed name: first and last letter of a single word,
      first letters of the first and the last word otherwise, upper-cased. */
  function InitialsOfTrimmed(t: string): (r: string)
    requires Trimmed(t)
    ensures |r| == 2 && r[0] == Text.UpperChar(t[0])
    ensures ' ' !in t ==> r[1] == Text.UpperChar(t[|t| - 1])
    ensures ' ' in t ==> |LastWord(t)| > 0 && r[1] == Text.UpperChar(LastWord(t)[0])
  {
    var parts := Text.Split(t, ' ');
    Text.SplitSingle(t, ' ');
    Text.SplitFirst(t, ' ');
    Text.SplitLast(t, ' ');
    if |parts| == 1 then
      Text.ToUpper([parts[0][0], parts[0][|parts[0]| - 1]])
    else
      Text.ToUpper([parts[0][0], parts[|parts| - 1][0]])
  }

  /** `getInitials` as written. A name of white space only passes the `!name`
      test, trims to `""`, splits into `[""]`, and `""[0] + ("" || "")` is the
      string `"undefined"`. */
  function InitialsAsWritten(name: Option<string>): (r: string)
    ensures name.Some? && name.value != "" && Text.Blank(name.value) ==> r == "UNDEFINED"
    ensures !(name.Some? && name.value != "" && Text.Blank(name.value)) ==> r == Initials(name)
  {
    if name.None? || name.value == "" then "?"
    else
      var t := Text.Trim(name.value);
      if t == "" then Text.ToUpper("undefined") else InitialsOfTrimmed(t)
  }

  /** The blank-name case of the helper as written. */
  lemma BlankNameAsWritten()
    ensures InitialsAsWritten(Some(" ")) == "UNDEFINED"
  {
    assert Text.Blank(" ");
  }

  /** `getInitials` with blank names treated like missing ones. */
  function Initials(name: Option<string>): (r: string)
    ensures r == "?" <==> name.None? || Text.Blank(name.value)
    ensures r != "?" ==> |r| == 2
  {
    if name.None? || Text.Trim(name.value) == "" then "?"
    else InitialsOfTrimmed(Text.Trim(name.value))
  }

  /** The two initials, read off the trimmed name directly: its first character,
      and its last character for one word or the character after its last space
      for several. */
  lemma InitialsOfName(name: string)
    requires !Text.Blank(name)
    ensures var t := Text.Trim(name);
            var r := Initials(Some(name));
            && |r| == 2 && r[0] == Text.UpperChar(t[0])
            && (' ' !in t ==> r[1] == Text.UpperChar(t[|t| - 1]))
            && (' ' in t ==> exists j :: 0 <= j < |t| - 1 && t[j] == ' ' && ' ' !in t[j + 1..]
                                         && r[1] == Text.UpperChar(t[j + 1]))
  {
    var t := Text.Trim(name);
    assert Trimmed(t);
    var r := InitialsOfTrimmed(t);
    assert Initials(Some(name)) == r;
    LastWordFollowsLastSpace(t);
    if ' ' in t {
      var j :| 0 <= j < |t| && t[j] == ' ' && LastWord(t) == t[j + 1..] && ' ' !in t[j + 1..];
      assert |LastWord(t)| > 0 && j < |t| - 1;
      assert r[1] == Text.UpperChar(t[j + 1]);
    }
  }

  // ---------------------------------------------------------------------------
  // Avatar colour

  /** A UTF-16 code unit, what `charCodeAt` returns. */
  type CodeUnit = x: int | 0 <= x < 0x1_0000

  /** The UTF-16 encoding of a string: one unit per character of the Basic
      Multilingual Plane, a surrogate pair for every other character. */
  function Utf16(s: string): (units: seq<CodeUnit>)
    ensures |units| >= |s|
    decreases |s|
  {
    if |s| == 0 then []
    else
      var c := s[0] as int;
      var first: seq<CodeUnit> :=
        if c < 0x1_0000 then [c]
        else [0xD800 + (c - 0x1_0000) / 0x400, 0xDC00 + (c - 0x1_0000) % 0x400];
      first + Utf16(s[1..])
  }

  /** `ToInt32`: the signed 32-bit integer congruent to `x` modulo 2^32. */
  function ToInt32(x: int): (r: int)
    ensures -0x8000_0000 <= r < 0x8000_0000
    ensures (x - r) % 0x1_0000_0000 == 0
  {
    var m := x % 0x1_0000_0000;
    if m >= 0x8000_0000 then m - 0x1_0000_0000 else m
  }

  /** One step of the loop: `hash = code + ((hash << 5) - hash)`, where `<<`
      works on the 32-bit value of `hash` and wraps its result to 32 bits, while
      the subtraction and addition are exact. */
  function HashStep(hash: int, code: CodeUnit): int {
    code + (ToInt32(ToInt32(hash) * 32) - hash)
  }

  /** The hash of a sequence of code units, folded from the left. */
  function Hash(units: seq<CodeUnit>): int
    decreases |units|
  {
    if |units| == 0 then 0 else HashStep(Hash(units[..|units| - 1]), units[|units| - 1])
  }

  function Abs(x: int): nat {
    if x < 0 then -x else x
  }

  /** The avatar colours, in the order the screen lists them. */
  const Palette: seq<string> := ["#FFD700", "#FFB347", "#87CEEB", "#77DD77", "#FF6961",
                                 "#C299FC", "#F49AC2", "#AEC6CF", "#B0E57C", "#FFCCCB"]

  function ColorIndex(units: seq<CodeUnit>): (i: nat)
    ensures i < |Palette|
  {
    Abs(Hash(units)) % |Palette|
  }

  /** `getColor`: the palette entry at `|hash| % 10`. */
  method GetColor(id: string) returns (color: string)
    ensures color == Palette[ColorIndex(Utf16(id))]
    ensures color in Palette
    ensures id == "" ==> color == "#FFD700"
  {
    var units := Utf16(id);
    var hash := 0;
    var i := 0;
    while i < |units|
      invariant 0 <= i <= |units|
      invariant hash == Hash(units[..i])
    {
      assert units[..i + 1][..i] == units[..i];
      hash := HashStep(hash, units[i]);
      i := i + 1;
    }
    assert units[..i] == units;
    color := Palette[Abs(hash) % |Palette|];
  }

  /** Each step moves the hash by less than 2^32. */
  lemma HashStepBound(hash: int, code: CodeUnit)
    ensures Abs(HashStep(hash, code)) <= Abs(hash) + 0x1_0000_0000
  {
  }

  /** The hash grows by less than 2^32 per code unit; so for ids of at most 2^21
      units every value the loop computes is an integer of magnitude at most 2^53,
      which a JavaScript number holds exactly, and the integer model is exact. */
  lemma {:induction false} HashBound(units: seq<CodeUnit>)
    ensures Abs(Hash(units)) <= |units| * 0x1_0000_0000
    ensures |units| <= 0x20_0000 ==> Abs(Hash(units)) <= 0x20_0000_0000_0000
    decreases |units|
  {
    if |units| > 0 {
      HashBound(units[..|units| - 1]);
      HashStepBound(Hash(units[..|units| - 1]), units[|units| - 1]);
    }
  }
}
