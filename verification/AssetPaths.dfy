/**
 Local asset storage: the check that keeps a storage key inside the storage root. It compares
 printed paths; what it decides is proved to be containment, directory by directory.
 */
module AssetPaths {
  import opened Outcomes
  import Text
  import AssetKeys

  /** A resolved path: the names from the top down, none of them empty, `.`, `..` or with a slash in it. */
  ghost predicate Clean(path: seq<string>) {
    forall k :: 0 <= k < |path| ==> path[k] != "" && path[k] != "." && path[k] != ".." && '/' !in path[k]
  }

  function Enter(path: seq<string>, piece: string): seq<string> {
    if piece == "" || piece == "." then path
    else if piece == ".." then (if |path| > 0 then path[..|path| - 1] else path)
    else path + [piece]
  }

  function EnterAll(path: seq<string>, pieces: seq<string>): seq<string>
    decreases |pieces|
  {
    if |pieces| == 0 then path else EnterAll(Enter(path, pieces[0]), pieces[1..])
  }

  /** The directory or file an absolute path leads to. */
  function Resolve(text: string): seq<string> {
    EnterAll([], Text.Split(text, '/'))
  }

  function Slashed(path: seq<string>): string {
    if |path| == 0 then "" else ['/'] + (path[0] + Slashed(path[1..]))
  }

  function Print(path: seq<string>): string {
    if |path| == 0 then "/" else Slashed(path)
  }

  /** The absolute path of a storage key; None if it is found to leave the root. */
  function ToAbsolutePath(root: string, storageKey: string): Option<string> {
    var resolvedRoot := Print(Resolve(root));
    var resolvedTarget := Print(Resolve(root + (['/'] + storageKey)));
    if resolvedTarget != resolvedRoot && !Text.StartsWith(resolvedTarget, resolvedRoot + "/") then None
    else Some(resolvedTarget)
  }

  // ---------------------------------------------------------------- resolving

  /** How one more character in front changes the pieces. */
  function Prefixed(x: char, c: char, pieces: seq<string>): seq<string>
    requires |pieces| > 0
  {
    if x == c then [""] + pieces else [[x] + pieces[0]] + pieces[1..]
  }

  lemma SplitPrefixed(x: char, s: string, c: char)
    ensures Text.Split([x] + s, c) == Prefixed(x, c, Text.Split(s, c))
  {
  }

  lemma PrefixedAcross(x: char, c: char, first: seq<string>, rest: seq<string>)
    requires |first| > 0
    ensures Prefixed(x, c, first + rest) == Prefixed(x, c, first) + rest
  {
  }

  lemma {:induction false} SplitAcross(a: string, b: string, c: char)
    ensures Text.Split(a + ([c] + b), c) == Text.Split(a, c) + Text.Split(b, c)
  {
    if |a| == 0 {
      SplitPrefixed(c, b, c);
      assert a + ([c] + b) == [c] + b;
    } else {
      var x, rest := a[0], a[1..];
      SplitAcross(rest, b, c);
      SplitPrefixed(x, rest, c);
      SplitPrefixed(x, rest + ([c] + b), c);
      PrefixedAcross(x, c, Text.Split(rest, c), Text.Split(b, c));
      assert a == [x] + rest && a + ([c] + b) == [x] + (rest + ([c] + b));
    }
  }

  lemma {:induction false} EnterInTurn(path: seq<string>, a: seq<string>, b: seq<string>)
    ensures EnterAll(path, a + b) == EnterAll(EnterAll(path, a), b)
    decreases |a|
  {
    if |a| == 0 {
      assert a + b == b;
    } else {
      EnterInTurn(Enter(path, a[0]), a[1..], b);
      assert (a + b)[1..] == a[1..] + b;
    }
  }

  lemma {:induction false} EnteredIsClean(path: seq<string>, pieces: seq<string>)
    requires Clean(path) && forall k :: 0 <= k < |pieces| ==> '/' !in pieces[k]
    ensures Clean(EnterAll(path, pieces))
    decreases |pieces|
  {
    if |pieces| > 0 {
      EnteredIsClean(Enter(path, pieces[0]), pieces[1..]);
    }
  }

  lemma {:induction false} PiecesHaveNoSlash(text: string)
    ensures forall k :: 0 <= k < |Text.Split(text, '/')| ==> '/' !in Text.Split(text, '/')[k]
  {
    if |text| > 0 {
      PiecesHaveNoSlash(text[1..]);
    }
  }

  lemma ResolvedIsClean(text: string)
    ensures Clean(Resolve(text))
  {
    PiecesHaveNoSlash(text);
    EnteredIsClean([], Text.Split(text, '/'));
  }

  /** A key is followed from where the root leads. */
  lemma KeyFollowsRoot(root: string, key: string)
    ensures Resolve(root + (['/'] + key)) == EnterAll(Resolve(root), Text.Split(key, '/'))
  {
    SplitAcross(root, key, '/');
    EnterInTurn([], Text.Split(root, '/'), Text.Split(key, '/'));
  }

  // ---------------------------------------------------------------- printed prefixes are directories

  lemma PrefixByName(r: string, t: string, restR: string, restT: string)
    requires '/' !in r && '/' !in t && |restR| > 0 && |restT| > 0 && restR[0] == '/' && restT[0] == '/'
    ensures Text.StartsWith(t + restT, r + restR) <==> t == r && Text.StartsWith(restT, restR)
  {
    if Text.StartsWith(t + restT, r + restR) {
      var more := (t + restT)[|r + restR|..];
      assert t + restT == r + restR + more;
      assert t + ['/'] + restT[1..] == t + restT;
      assert r + ['/'] + (restR[1..] + more) == r + restR + more;
      Text.SplitUnique(t, r, '/', restT[1..], restR[1..] + more);
      assert restT == restR + more;
    }
    if t == r && Text.StartsWith(restT, restR) {
      assert (t + restT)[..|r + restR|] == t + restT[..|restR|];
    }
  }

  lemma {:induction false} PrefixByDirectory(r: seq<string>, t: seq<string>)
    requires Clean(r) && Clean(t)
    ensures Text.StartsWith(Slashed(t) + "/", Slashed(r) + "/") <==> r <= t
  {
    if |r| == 0 {
      assert (Slashed(t) + "/")[0] == '/';
    } else if |t| > 0 {
      PrefixByDirectory(r[1..], t[1..]);
      var restR, restT := Slashed(r[1..]) + "/", Slashed(t[1..]) + "/";
      PrefixByName(r[0], t[0], restR, restT);
      assert Slashed(r) + "/" == ['/'] + (r[0] + restR) && Slashed(t) + "/" == ['/'] + (t[0] + restT);
      SharedHead('/', t[0] + restT, r[0] + restR);
      assert r <= t <==> r[0] == t[0] && r[1..] <= t[1..] by {
        assert r == [r[0]] + r[1..] && t == [t[0]] + t[1..];
      }
    }
  }

  lemma SharedHead(c: char, s: string, prefix: string)
    ensures Text.StartsWith([c] + s, [c] + prefix) <==> Text.StartsWith(s, prefix)
  {
    if |prefix| <= |s| {
      assert ([c] + s)[..|[c] + prefix|] == [c] + s[..|prefix|];
      assert ([c] + prefix)[1..] == prefix && ([c] + s[..|prefix|])[1..] == s[..|prefix|];
    }
  }

  lemma EqualOrBelow(s: string, prefix: string)
    ensures Text.StartsWith(s + "/", prefix + "/") <==> s == prefix || Text.StartsWith(s, prefix + "/")
  {
    if |s| == |prefix| {
      assert (s + "/")[..|prefix + "/"|] == s + "/";
      assert (s + "/")[..|s|] == s && (prefix + "/")[..|s|] == prefix;
    } else if |s| > |prefix| {
      assert (s + "/")[..|prefix + "/"|] == s[..|prefix + "/"|];
    }
  }

  lemma PrintedInside(base: seq<string>, target: seq<string>)
    requires Clean(base) && Clean(target)
    ensures (Print(target) == Print(base) || Text.StartsWith(Print(target), Print(base) + "/"))
       <==> if |base| > 0 then base <= target else target == []
  {
    if |base| > 0 {
      PrefixByDirectory(base, target);
      EqualOrBelow(Slashed(target), Slashed(base));
      assert |target| == 0 ==> Slashed(base)[0] == '/' && |Slashed(base)| > 1;
    } else if |target| > 0 {
      assert |target[0]| > 0 && Slashed(target)[1] == target[0][0] != '/';
    }
  }

  /**
   The check accepts a key exactly when the path it leads to lies in the root directory or is
   the root itself, whatever `.` and `..` the key contains. The one exception is a root that is
   the top directory: it accepts no key that leads anywhere below it.
   */
  lemma ConfinementIsExact(root: string, key: string)
    ensures var base, target := Resolve(root), EnterAll(Resolve(root), Text.Split(key, '/'));
            ToAbsolutePath(root, key) ==
              if (if |base| > 0 then base <= target else target == []) then Some(Print(target)) else None
  {
    var text := root + (['/'] + key);
    KeyFollowsRoot(root, key);
    ResolvedIsClean(root);
    ResolvedIsClean(text);
    PrintedInside(Resolve(root), Resolve(text));
  }

  /** An instance: with the top directory as root, the key `a` is refused. */
  lemma TopDirectoryRefusesKeys()
    ensures ToAbsolutePath("/", "a") == None
  {
    ConfinementIsExact("/", "a");
    assert Text.Split("", '/') == [""];
    assert "/"[1..] == "";
    assert Text.Split("/", '/') == ["", ""];
    Text.SplitFirst("a", '/', "");
    EnterOne([], "a");
    var none: seq<string> := [];
    assert ["", ""][1..] == [""] && [""][1..] == none;
    assert EnterAll(none, [""]) == EnterAll(none, none);
    assert EnterAll(none, ["", ""]) == EnterAll(none, [""]);
  }

  lemma EnterOne(path: seq<string>, name: string)
    requires name !in {"", ".", ".."}
    ensures EnterAll(path, [name]) == path + [name]
  {
    var none: seq<string> := [];
    assert [name][1..] == none;
    assert EnterAll(path + [name], none) == path + [name];
  }

  // ---------------------------------------------------------------- the keys the storage makes

  lemma EnterTwo(path: seq<string>, first: string, second: string)
    requires first !in {"", ".", ".."} && second !in {"", ".", ".."}
    ensures EnterAll(path, [first, second]) == path + [first, second]
  {
    var none: seq<string> := [];
    assert [first, second][1..] == [second] && [second][1..] == none;
    assert EnterAll(path + [first], [second]) == EnterAll(path + [first] + [second], none);
    assert path + [first] + [second] == path + [first, second];
  }

  lemma DigitsAreNames(domain: nat)
    ensures var s := Text.NatText(domain); s != "" && s != "." && s != ".." && '/' !in s
  {
    var s := Text.NatText(domain);
    assert forall k :: 0 <= k < |s| ==> Text.IsDigit(s[k]);
    assert Text.IsDigit(s[0]);
  }

  /** Every key the storage makes leads to a file two levels below the root, and to a file of its own. */
  lemma StoredKeysStayInside(root: string, domain: nat, unique: string, filename: string)
    requires Resolve(root) != [] && AssetKeys.AllSafe(unique) && |unique| > 0
    ensures var name := unique + "-" + AssetKeys.SanitizeFilename(filename);
            ToAbsolutePath(root, AssetKeys.StorageKey(domain, unique, filename))
                == Some(Print(Resolve(root) + [Text.NatText(domain), name]))
  {
    var base, first := Resolve(root), Text.NatText(domain);
    var name := unique + "-" + AssetKeys.SanitizeFilename(filename);
    AssetKeys.SanitizedNamesAreClean(filename);
    AssetKeys.SafeHasNoSlash(unique);
    DigitsAreNames(domain);
    Text.SplitFirst(first, '/', name);
    Text.SplitFirst(name, '/', "");
    assert name[|unique|] == '-' && |name| > |unique|;
    assert Text.Split(AssetKeys.StorageKey(domain, unique, filename), '/') == [first, name];
    EnterTwo(base, first, name);
    ConfinementIsExact(root, AssetKeys.StorageKey(domain, unique, filename));
  }

  // ---------------------------------------------------------------- what resolving and printing mean

  /**
   One more piece behind a slash leads to the same place if it is empty or a dot, to the directory
   above if it is two dots and there is one, and to that name below otherwise.
   */
  lemma ResolvedByPieces(text: string, piece: string)
    requires '/' !in piece
    ensures Resolve("") == []
    ensures var path := Resolve(text);
            Resolve(text + (['/'] + piece))
            == if piece == "" || piece == "." then path
               else if piece != ".." then path + [piece]
               else if path == [] then [] else path[..|path| - 1]
  {
    assert Text.Split("", '/') == [""];
    Text.SplitFirst(piece, '/', "");
    SplitAcross(text, piece, '/');
    EnterInTurn([], Text.Split(text, '/'), [piece]);
    assert [piece][1..] == [];
  }

  /** A path is printed with a slash in front of each name; the top directory is a slash. */
  lemma PrintedByNames(path: seq<string>, name: string)
    ensures Print([]) == "/" && Print([name]) == "/" + name
    ensures path != [] ==> Print(path + [name]) == Print(path) + "/" + name
  {
    SlashedOneMore(path, name);
    SlashedOneMore([], name);
    assert [] + [name] == [name];
  }

  lemma {:induction false} SlashedOneMore(path: seq<string>, name: string)
    ensures Slashed(path + [name]) == Slashed(path) + (['/'] + name)
  {
    if |path| == 0 {
      assert path + [name] == [name] && [name][1..] == [];
    } else {
      SlashedOneMore(path[1..], name);
      assert (path + [name])[1..] == path[1..] + [name];
      Text.Associative(path[0], Slashed(path[1..]), ['/'] + name);
      Text.Associative(['/'], path[0] + Slashed(path[1..]), ['/'] + name);
    }
  }
}
