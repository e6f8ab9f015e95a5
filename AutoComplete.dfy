/**
  The default trigger map of the chat textarea (ChatAutoComplete): after `/`
  it suggests commands, after `:` emoji and after `@` users of the channel.
  Each trigger has a data provider, which computes the suggestions for the
  query typed after the trigger character, and an output, which gives the
  text that replaces the query once a suggestion is picked.

  The emoji index is a parameter `search`: it answers `None` where the source
  has no index or the index answers nothing, so that `search(q) || []` is `[]`.
 */
module AutoComplete {
  import opened Js
  import opened Seqs

  /** A user as the autocomplete sees it; `name` is `None` when undefined. */
  datatype User = User(id: string, name: Option<string>)

  function UserId(u: User): string
  {
    u.id
  }

  /** A channel command; `name` is `None` when undefined. */
  datatype Command = Command(name: Option<string>)

  /** An entry of the emoji index. */
  datatype Emoji = Emoji(id: string, native: Option<string>, emoticons: Option<seq<string>>)

  /** One call `onReady(data, query)`. */
  datatype ReadyCall<T> = ReadyCall(data: seq<T>, query: string)

  /** What a synchronous data provider returns, with the calls it made to `onReady`, in order. */
  datatype Provided<T> = Provided(result: seq<T>, ready: seq<ReadyCall<T>>)

  /** The `@` provider answers from the users already known, or hands the query to the debounced remote search. */
  datatype MentionLookup = Local(provided: Provided<User>) | RemoteSearch(query: string)

  /** No provider returns more suggestions than this. */
  const MaxSuggestions: nat := 10

  /** Below this many members, every member is taken to be known locally. */
  const MemberSearchThreshold: nat := 100

  /** The calls to `onReady` made by a provider that returns `result` for `q`. */
  function ReadyCalls<T>(hasOnReady: bool, result: seq<T>, q: string): seq<ReadyCall<T>>
  {
    if hasOnReady then [ReadyCall(result, q)] else []
  }

  // ---------------------------------------------------------------------------
  // The member/watcher union

  /**
    The property names every plain object `{}` inherits from
    `Object.prototype`. Reading `uniqueUsers[id]` for one of them yields an
    inherited function or object, which is truthy, before anything is stored.
   */
  const InheritedKeys: set<string> := {
    "constructor", "__proto__", "__defineGetter__", "__defineSetter__",
    "__lookupGetter__", "__lookupSetter__", "hasOwnProperty", "isPrototypeOf",
    "propertyIsEnumerable", "toLocaleString", "toString", "valueOf"}

  /** `uniqueUsers[id]` is truthy: a user is stored under `id`, or `id` is inherited. */
  predicate Taken(uniqueUsers: map<string, User>, id: string)
  {
    id in uniqueUsers || id in InheritedKeys
  }

  /** The users the union may list: the defined ones whose id is not inherited, in input order. */
  function Candidates(users: seq<Option<User>>): seq<User>
  {
    WithoutKeys(Present(users), UserId, InheritedKeys)
  }

  /** The member/watcher union as a value: the first candidate of every id. */
  function Union(members: seq<Option<User>>, watchers: seq<Option<User>>): seq<User>
  {
    UniqBy(Candidates(members + watchers), UserId)
  }

  /**
    `getMembersAndWatchers`: the users of the channel's member records, then
    the watchers, skipping absent users and those whose id `uniqueUsers`
    already answers, and keeping only the first user seen for every other id.
    `uniqueUsers` is the dictionary the source fills; `users` lists its
    values in the order they were inserted.
   */
  method MembersAndWatchers(members: seq<Option<User>>, watchers: seq<Option<User>>) returns (users: seq<User>)
    ensures users == Union(members, watchers)
  {
    var all := members + watchers;
    var uniqueUsers: map<string, User> := map[];
    users := [];
    var i := 0;
    while i < |all|
      invariant 0 <= i <= |all|
      invariant users == UniqBy(Candidates(all[..i]), UserId)
      invariant IndexesValues(uniqueUsers, users)
    {
      assert all[..i + 1] == all[..i] + [all[i]];
      PresentSnoc(all[..i], all[i]);
      match all[i] {
        case Some(user) =>
          WithoutKeysSnoc(Present(all[..i]), user, UserId, InheritedKeys);
          UniqBySnoc(Candidates(all[..i]), user, UserId);
          if !Taken(uniqueUsers, user.id) {
            InsertUser(uniqueUsers, users, user);
            uniqueUsers := uniqueUsers[user.id := user];
            users := users + [user];
          }
        case None =>
      }
      i := i + 1;
    }
    assert all[..i] == all;
  }

  /** `byId` maps each id to the user of `values` that has it, and to nothing else. */
  ghost predicate IndexesValues(byId: map<string, User>, values: seq<User>)
  {
    && byId.Keys == KeysOf(values, UserId)
    && forall id :: id in byId ==> byId[id].id == id && byId[id] in values
  }

  /** Storing a user under a new id keeps the dictionary and its value list in step. */
  lemma InsertUser(byId: map<string, User>, values: seq<User>, user: User)
    requires IndexesValues(byId, values) && user.id !in byId
    ensures IndexesValues(byId[user.id := user], values + [user])
  {
    KeysOfSnoc(values, user, UserId);
    assert forall u :: u in values ==> u in values + [user];
  }

  /**
    Members come first: the union is the members' own candidates without
    duplicates, followed by the watcher candidates whose id no member has.
   */
  lemma UnionMembersFirst(members: seq<Option<User>>, watchers: seq<Option<User>>)
    ensures Union(members, watchers)
         == UniqBy(Candidates(members), UserId)
          + UniqBy(WithoutKeys(Candidates(watchers), UserId, KeysOf(Candidates(members), UserId)), UserId)
  {
    PresentAppend(members, watchers);
    WithoutKeysAppend(Present(members), Present(watchers), UserId, InheritedKeys);
    UniqByAppend(Candidates(members), Candidates(watchers), UserId);
  }

  /** The union lists every user at most once. */
  lemma UnionUnique(members: seq<Option<User>>, watchers: seq<Option<User>>)
    ensures NoDupKeys(Union(members, watchers), UserId)
  {
    UniqByNoDup(Candidates(members + watchers), UserId);
  }

  /** Every user of the union is a member or a watcher, and none has an inherited id. */
  lemma UnionFromInputs(members: seq<Option<User>>, watchers: seq<Option<User>>, v: User)
    requires v in Union(members, watchers)
    ensures Some(v) in members + watchers
    ensures v.id !in InheritedKeys
  {
    UniqBySubset(Candidates(members + watchers), UserId);
    WithoutKeysMembers(Present(members + watchers), UserId, InheritedKeys);
  }

  /** Every member and watcher with an ordinary id is represented in the union by a user with that id. */
  lemma UnionCoversInputs(members: seq<Option<User>>, watchers: seq<Option<User>>, u: User)
    requires Some(u) in members + watchers && u.id !in InheritedKeys
    ensures exists v :: v in Union(members, watchers) && v.id == u.id
  {
    var p := Candidates(members + watchers);
    WithoutKeysMembers(Present(members + watchers), UserId, InheritedKeys);
    UniqByKeys(p, UserId);
    assert u in p;
    var k :| 0 <= k < |p| && p[k] == u;
    assert u.id in KeysOf(p, UserId);
    var union := UniqBy(p, UserId);
    var j :| 0 <= j < |union| && union[j].id == u.id;
    assert union[j] in union;
  }

  /** The user the union keeps for an id is the first candidate listed with it, members before watchers. */
  lemma UnionKeepsFirstSeen(members: seq<Option<User>>, watchers: seq<Option<User>>, i: nat)
    requires i < |Candidates(members + watchers)|
    requires Candidates(members + watchers)[i].id !in KeysOf(Candidates(members + watchers)[..i], UserId)
    ensures Candidates(members + watchers)[i] in Union(members, watchers)
  {
    UniqByKeepsFirst(Candidates(members + watchers), UserId, i);
  }

  // ---------------------------------------------------------------------------
  // `/`: commands

  /**
    `c.name?.indexOf(q) !== -1`: the query occurs somewhere in the name, as
    typed; a nameless command passes, since `undefined !== -1`.
   */
  predicate CommandMatches(c: Command, q: string)
    ensures CommandMatches(c, q) <==> c.name.None? || exists k :: OccursAt(c.name.value, q, k)
  {
    c.name.None? || (IncludesIffOccurs(c.name.value, q); IndexOf(c.name.value, q) != -1)
  }

  /** The commands the `/` provider keeps before sorting, in registry order. */
  function SelectCommands(commands: seq<Command>, q: string): seq<Command>
  {
    Filter(commands, c => CommandMatches(c, q))
  }

  /**
    The value the comparator compares for a command: its lower-cased name,
    with a '0' in front when that name starts with `q`; `None` for a nameless
    command.
   */
  function SortKey(c: Command, q: string): (k: Option<string>)
    ensures k.None? <==> c.name.None?
    ensures c.name.Some? && StartsWith(Lower(c.name.value), q) ==> k == Some("0" + Lower(c.name.value))
    ensures c.name.Some? && !StartsWith(Lower(c.name.value), q) ==> k == Some(Lower(c.name.value))
  {
    match c.name
    case None => None
    case Some(n) =>
      var lower := Lower(n);
      IndexOfZeroIffStartsWith(lower, q);
      if IndexOf(lower, q) == 0 then Some("0" + lower) else Some(lower)
  }

  /**
    The comparator returns 1: `a` must come after `b`. It never does when
    either name is undefined or the two keys are equal, and between two
    commands of the same group (both or neither starting with `q`) it follows
    the order of the lower-cased names.
   */
  predicate After(a: Command, b: Command, q: string)
    ensures After(a, b, q) ==> a.name.Some? && b.name.Some? && SortKey(a, q) != SortKey(b, q)
    ensures a.name.Some? && b.name.Some?
            && StartsWith(Lower(a.name.value), q) == StartsWith(Lower(b.name.value), q) ==>
              (After(a, b, q) <==> LexLess(Lower(b.name.value), Lower(a.name.value)))
  {
    var ka, kb := SortKey(a, q), SortKey(b, q);
    if ka.Some? && kb.Some? then
      var la, lb := Lower(a.name.value), Lower(b.name.value);
      LexLessSharedHead('0', lb, la);
      assert "0" + lb == ['0'] + lb && "0" + la == ['0'] + la;
      LexLess(kb.value, ka.value)
    else false
  }

  predicate AllNamed(s: seq<Command>)
  {
    forall i :: 0 <= i < |s| ==> s[i].name.Some?
  }

  /** No command of `s` must come after a later one. */
  predicate SortedBy(s: seq<Command>, q: string)
  {
    forall i, j :: 0 <= i < j < |s| ==> !After(s[i], s[j], q)
  }

  /** Among named commands, "not after" is transitive: the comparator is a total preorder there. */
  lemma NotAfterTransitive(a: Command, b: Command, c: Command, q: string)
    requires a.name.Some? && b.name.Some? && c.name.Some?
    requires !After(a, b, q) && !After(b, c, q)
    ensures !After(a, c, q)
  {
    var ka, kb, kc := SortKey(a, q).value, SortKey(b, q).value, SortKey(c, q).value;
    LexLessTotal(ka, kb);
    LexLessTotal(kb, kc);
    if LexLess(kc, ka) {
      if LexLess(ka, kb) {
        LexLessTransitive(kc, ka, kb);
      }
      if LexLess(kb, kc) {
        LexLessTransitive(kb, kc, ka);
        if ka != kb {
          LexLessTransitive(ka, kb, ka);
          LexLessIrreflexive(ka);
        }
      }
    }
  }

  /** The comparator is antisymmetric: two commands never each come after the other. */
  lemma AfterAsymmetric(a: Command, b: Command, q: string)
    requires After(a, b, q)
    ensures !After(b, a, q)
  {
    var ka, kb := SortKey(a, q).value, SortKey(b, q).value;
    if LexLess(ka, kb) {
      LexLessTransitive(ka, kb, ka);
      LexLessIrreflexive(ka);
    }
  }

  method Swap(a: array<Command>, i: nat, j: nat)
    requires i < a.Length && j < a.Length
    modifies a
    ensures a[i] == old(a[j]) && a[j] == old(a[i])
    ensures forall k :: 0 <= k < a.Length && k != i && k != j ==> a[k] == old(a[k])
    ensures multiset(a[..]) == multiset(old(a[..]))
  {
    a[i], a[j] := a[j], a[i];
  }

  /**
    `selectedCommands.sort(comparator)`, as a stable insertion sort. When every
    command is named the comparator is consistent and the array ends sorted;
    it is always a permutation of what it was.
   */
  method SortCommands(a: array<Command>, q: string)
    modifies a
    ensures multiset(a[..]) == multiset(old(a[..]))
    ensures AllNamed(old(a[..])) ==> SortedBy(a[..], q)
  {
    ghost var named := AllNamed(a[..]);
    var i := 0;
    while i < a.Length
      invariant 0 <= i <= a.Length
      invariant multiset(a[..]) == multiset(old(a[..]))
      invariant named ==> AllNamed(a[..])
      invariant named ==> forall k, l :: 0 <= k < l < i ==> !After(a[k], a[l], q)
    {
      var j := i;
      while j > 0 && After(a[j - 1], a[j], q)
        invariant 0 <= j <= i
        invariant multiset(a[..]) == multiset(old(a[..]))
        invariant named ==> AllNamed(a[..])
        invariant named ==> forall k, l :: 0 <= k < l <= i && k != j && l != j ==> !After(a[k], a[l], q)
        invariant named ==> forall l :: j < l <= i ==> !After(a[j], a[l], q)
      {
        AfterAsymmetric(a[j - 1], a[j], q);
        Swap(a, j - 1, j);
        j := j - 1;
      }
      if named {
        forall k, l | 0 <= k < l <= i ensures !After(a[k], a[l], q) {
          if l == j && k < j - 1 {
            assert a[j - 1].name.Some? && a[k].name.Some? && a[j].name.Some?;
            NotAfterTransitive(a[k], a[j - 1], a[j], q);
          }
        }
      }
      i := i + 1;
    }
  }

  /** The first `k` entries of a permutation of `selected` are drawn from `selected`. */
  lemma HeadOfPermutation(perm: seq<Command>, selected: seq<Command>, k: nat)
    requires multiset(perm) == multiset(selected) && k <= |perm|
    ensures multiset(perm[..k]) <= multiset(selected)
    ensures multiset(selected) - multiset(perm[..k]) == multiset(perm[k..])
    ensures forall c :: c in perm[..k] ==> c in selected
  {
    assert perm == perm[..k] + perm[k..];
    forall c | c in perm[..k] ensures c in selected {
      assert c in multiset(perm);
    }
  }

  /**
    Cutting a sorted list after `k` entries: the head is sorted and no command
    cut off must come before a command kept.
   */
  lemma SortedSplit(sorted: seq<Command>, k: nat, q: string)
    requires SortedBy(sorted, q) && k <= |sorted|
    ensures SortedBy(sorted[..k], q)
    ensures forall x, y :: x in sorted[k..] && y in sorted[..k] ==> !After(y, x, q)
  {
    forall x, y | x in sorted[k..] && y in sorted[..k] ensures !After(y, x, q) {
      var m :| 0 <= m < |sorted[k..]| && sorted[k..][m] == x;
      var n :| 0 <= n < k && sorted[..k][n] == y;
      assert sorted[n] == y && sorted[k + m] == x;
    }
  }

  /**
    The `/` provider: nothing unless the text starts with `/` and a command
    registry is given; otherwise the matching commands, sorted, at most 10 of
    them, also passed to `onReady`.
   */
  method CommandsProvider(q: string, text: string, commands: Option<seq<Command>>, hasOnReady: bool)
    returns (p: Provided<Command>)
    ensures IndexOf(text, "/") != 0 || commands.None? ==> p == Provided([], [])
    ensures IndexOf(text, "/") == 0 && commands.Some? ==>
      var selected := SelectCommands(commands.value, q);
      && |p.result| == Min(MaxSuggestions, |selected|)
      && multiset(p.result) <= multiset(selected)
      && (forall c :: c in p.result ==> c in commands.value && CommandMatches(c, q))
      && (AllNamed(selected) ==>
            && SortedBy(p.result, q)
            && forall x, y :: x in multiset(selected) - multiset(p.result) && y in p.result ==> !After(y, x, q))
      && p.ready == ReadyCalls(hasOnReady, p.result, q)
  {
    if IndexOf(text, "/") != 0 || commands.None? {
      return Provided([], []);
    }
    var selected := SelectCommands(commands.value, q);
    var a := new Command[|selected|](i requires 0 <= i < |selected| => selected[i]);
    assert a[..] == selected;
    SortCommands(a, q);
    var k := Min(MaxSuggestions, a.Length);
    var result := a[..k];
    HeadOfPermutation(a[..], selected, k);
    if AllNamed(selected) {
      SortedSplit(a[..], k, q);
    }
    p := Provided(result, ReadyCalls(hasOnReady, result, q));
  }

  /**
    Prefix matches come first: in a sorted list of named commands, a command
    whose lower-cased name starts with `q` is never preceded by one whose name
    does not, provided that name is not empty and begins above '0'.
   */
  lemma PrefixMatchesFirst(s: seq<Command>, q: string, i: nat, j: nat)
    requires SortedBy(s, q) && AllNamed(s)
    requires i < j < |s|
    requires StartsWith(Lower(s[j].name.value), q)
    requires Lower(s[i].name.value) != [] && Lower(s[i].name.value)[0] > '0'
    ensures StartsWith(Lower(s[i].name.value), q)
  {
    IndexOfZeroIffStartsWith(Lower(s[j].name.value), q);
    IndexOfZeroIffStartsWith(Lower(s[i].name.value), q);
    ZeroPrefixComesFirst(Lower(s[j].name.value), Lower(s[i].name.value));
    assert !StartsWith(Lower(s[i].name.value), q) ==> After(s[i], s[j], q);
  }

  /**
    The '0' marker compares the lower-cased name with the query as typed, so a
    query holding a capital letter marks no name: with it the commands sort by
    lower-cased name alone, whichever of them start with the query.
   */
  lemma CapitalQueryMarksNoName(c: Command, q: string, k: nat)
    requires c.name.Some? && k < |q| && 'A' <= q[k] <= 'Z'
    ensures SortKey(c, q) == Some(Lower(c.name.value))
  {
    var lower := Lower(c.name.value);
    assert |q| <= |lower| ==> lower[..|q|][k] != q[k];
  }

  /** Within each group, commands are in the order of their lower-cased names. */
  lemma GroupsSortedByName(s: seq<Command>, q: string, i: nat, j: nat)
    requires SortedBy(s, q) && AllNamed(s)
    requires i < j < |s|
    requires StartsWith(Lower(s[i].name.value), q) == StartsWith(Lower(s[j].name.value), q)
    ensures !LexLess(Lower(s[j].name.value), Lower(s[i].name.value))
  {
    var li, lj := Lower(s[i].name.value), Lower(s[j].name.value);
    IndexOfZeroIffStartsWith(li, q);
    IndexOfZeroIffStartsWith(lj, q);
    assert !After(s[i], s[j], q);
    if StartsWith(li, q) {
      LexLessSharedHead('0', lj, li);
      assert "0" + lj == ['0'] + lj && "0" + li == ['0'] + li;
    }
  }

  /**
    The '0' sentinel is not enough on its own: a name that does not start with
    the query but begins with a character at or below '0' sorts before a
    prefix match. Query "a": "!ban" (contains "a") comes before "abc".
   */
  lemma SentinelNeedsOrdinaryNames()
    ensures var early, match_ := Command(Some("!ban")), Command(Some("abc"));
      && CommandMatches(early, "a") && CommandMatches(match_, "a")
      && StartsWith(Lower(match_.name.value), "a") && !StartsWith(Lower(early.name.value), "a")
      && After(match_, early, "a")
  {
    var early, match_ := Command(Some("!ban")), Command(Some("abc"));
    assert Lower("!ban") == "!ban";
    assert Lower("abc") == "abc";
    assert OccursAt("!ban", "a", 2);
    assert OccursAt("abc", "a", 0);
    IndexOfZeroIffStartsWith("abc", "a");
    IndexOfZeroIffStartsWith("!ban", "a");
    assert "!ban"[..1] == "!" && "abc"[..1] == "a";
    assert IndexOf(Lower("abc"), "a") == 0;
    assert !StartsWith("!ban", "a") && StartsWith("abc", "a");
    assert SortKey(match_, "a") == Some("0" + Lower("abc"));
    assert "0" + Lower("abc") == "0abc";
    assert SortKey(early, "a") == Some("!ban");
  }

  /** The `/` output text: `/${entity.name}`; an undefined name prints as "undefined". */
  function CommandText(c: Command): (t: string)
    ensures |t| >= 1 && t[0] == '/'
    ensures c.name.Some? ==> t[1..] == c.name.value
    ensures c.name.None? ==> t == "/undefined"
  {
    "/" + match c.name case Some(n) => n case None => "undefined"
  }

  // ---------------------------------------------------------------------------
  // `:`: emoji

  /** The character is in `[a-zA-Z0-9+-]`, so `/[^a-zA-Z0-9+-]/` does not match it. */
  predicate EmojiQueryChar(c: char)
  {
    'a' <= c <= 'z' || 'A' <= c <= 'Z' || '0' <= c <= '9' || c == '+' || c == '-'
  }

  /** `emojiIndex?.search(q) || []`. */
  function Found(search: string -> Option<seq<Emoji>>, q: string): seq<Emoji>
  {
    match search(q)
    case None => []
    case Some(es) => es
  }

  /**
    The `:` provider: nothing for an empty query or one whose first character
    cannot start an emoji name; otherwise the index's first 10 hits in order,
    also passed to `onReady`.
   */
  function EmojiProvider(q: string, search: string -> Option<seq<Emoji>>, hasOnReady: bool): (p: Provided<Emoji>)
    ensures q == "" || !EmojiQueryChar(q[0]) ==> p == Provided([], [])
    ensures q != "" && EmojiQueryChar(q[0]) ==>
      var found := Found(search, q);
      && |p.result| == Min(MaxSuggestions, |found|)
      && p.result == found[..|p.result|]
      && p.ready == ReadyCalls(hasOnReady, p.result, q)
  {
    if |q| == 0 || !EmojiQueryChar(q[0]) then Provided([], [])
    else
      var result := Take(Found(search, q), MaxSuggestions);
      Provided(result, ReadyCalls(hasOnReady, result, q))
  }

  /** `!!e.emoticons?.includes(word)`. */
  predicate HasEmoticon(e: Emoji, word: string)
  {
    e.emoticons.Some? && word in e.emoticons.value
  }

  /** The index of the first emoji at or after `from` listing `word` as an emoticon, or -1 (`Array.prototype.find`). */
  function FirstWithEmoticon(s: seq<Emoji>, word: string, from: nat): (k: int)
    requires from <= |s|
    decreases |s| - from
    ensures k == -1 || (from <= k < |s| && HasEmoticon(s[k], word))
    ensures forall j :: from <= j < |s| && (k == -1 || j < k) ==> !HasEmoticon(s[j], word)
  {
    if from == |s| then -1
    else if HasEmoticon(s[from], word) then from
    else FirstWithEmoticon(s, word, from + 1)
  }

  /**
    `emojiReplace(word)`: the native character of the first of the index's
    first 10 hits that lists `word` as an emoticon; `None` when there is none
    or it has no native character.
   */
  function EmojiReplace(word: string, search: string -> Option<seq<Emoji>>): (r: Option<string>)
    ensures var hits := Take(Found(search, word), MaxSuggestions);
      && ((forall i :: 0 <= i < |hits| ==> !HasEmoticon(hits[i], word)) ==> r == None)
      && (forall i :: (0 <= i < |hits| && HasEmoticon(hits[i], word)
                       && forall j :: 0 <= j < i ==> !HasEmoticon(hits[j], word)) ==> r == hits[i].native)
      && (r.Some? ==> exists i :: 0 <= i < |hits| && HasEmoticon(hits[i], word) && hits[i].native == r
                                  && forall j :: 0 <= j < i ==> !HasEmoticon(hits[j], word))
  {
    var hits := Take(Found(search, word), MaxSuggestions);
    var k := FirstWithEmoticon(hits, word, 0);
    if k == -1 then None else hits[k].native
  }

  /** The `:` output text: `${entity.native}`; an undefined native prints as "undefined". */
  function EmojiText(e: Emoji): (t: string)
    ensures e.native.Some? ==> t == e.native.value
    ensures e.native.None? ==> t == "undefined"
  {
    match e.native
    case Some(n) => n
    case None => "undefined"
  }

  // ---------------------------------------------------------------------------
  // `@`: mentions

  /**
    The local filter of the `@` provider: an empty query keeps everyone;
    otherwise the lower-cased query must occur in the lower-cased name, when
    the name is defined, or in the lower-cased id.
   */
  predicate UserMatches(u: User, query: string)
    ensures UserMatches(u, query) <==>
      || query == ""
      || (u.name.Some? && exists k :: OccursAt(Lower(u.name.value), Lower(query), k))
      || exists k :: OccursAt(Lower(u.id), Lower(query), k)
  {
    IncludesIffOccurs(Lower(u.id), Lower(query));
    || query == ""
    || (u.name.Some? && (IncludesIffOccurs(Lower(u.name.value), Lower(query));
                         Includes(Lower(u.name.value), Lower(query))))
    || Includes(Lower(u.id), Lower(query))
  }

  /** The known users the local `@` filter keeps, in union order. */
  function MatchingUsers(users: seq<User>, query: string): seq<User>
  {
    Filter(users, u => UserMatches(u, query))
  }

  /**
    The `@` provider. With an empty query, or fewer than 100 member records,
    it filters the member/watcher union locally, keeps at most 10 users and
    passes them to `onReady`; otherwise it starts the debounced remote search.
   */
  method MentionProvider(query: string, members: seq<Option<User>>, watchers: seq<Option<User>>, hasOnReady: bool)
    returns (m: MentionLookup)
    ensures m.Local? <==> query == "" || |members| < MemberSearchThreshold
    ensures m.RemoteSearch? ==> m.query == query
    ensures m.Local? ==>
      var users := Union(members, watchers);
      var data := m.provided.result;
      && |data| == Min(MaxSuggestions, |MatchingUsers(users, query)|)
      && (forall i :: 0 <= i < |data| ==> data[i] == MatchingUsers(users, query)[i])
      && (forall u :: u in data ==> u in users && UserMatches(u, query))
      && (query == "" ==> data == Take(users, MaxSuggestions))
      && m.provided.ready == ReadyCalls(hasOnReady, data, query)
  {
    if query == "" || |members| < MemberSearchThreshold {
      var users := MembersAndWatchers(members, watchers);
      var matching := MatchingUsers(users, query);
      var data := Take(matching, MaxSuggestions);
      TakeFilter(users, u => UserMatches(u, query), MaxSuggestions);
      if query == "" {
        FilterAll(users, u => UserMatches(u, query));
      }
      return Local(Provided(data, ReadyCalls(hasOnReady, data, query)));
    }
    return RemoteSearch(query);
  }

  /** The `@` output text: `@${entity.name || entity.id}`. */
  function MentionText(u: User): (t: string)
    ensures |t| >= 1 && t[0] == '@'
    ensures Truthy(u.name) ==> t[1..] == u.name.value
    ensures !Truthy(u.name) ==> t[1..] == u.id
  {
    "@" + if Truthy(u.name) then u.name.value else u.id
  }
}
