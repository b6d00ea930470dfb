/** Players and enemies of the game store, and the nickname-keyed operations
  * that both collections share: search, removal and the uniqueness of
  * nicknames that the store keeps. */
module Roster {

  /** A player or an enemy. Both records carry the same three fields; the
    * nickname is the key of its collection. */
  datatype Character = Character(nickname: string, life: int, attack: int)

  datatype Option<T> = None | Some(value: T)

  /** Some entry of `s` has this nickname. */
  predicate Has(s: seq<Character>, nickname: string)
  {
    exists k :: 0 <= k < |s| && s[k].nickname == nickname
  }

  /** No two entries of `s` share a nickname. */
  ghost predicate UniqueNicknames(s: seq<Character>)
  {
    forall i, j :: 0 <= i < j < |s| ==> s[i].nickname != s[j].nickname
  }

  /** The position of the first entry with this nickname, or -1 when there is
    * none: the index a range loop that stops at the first match ends with. */
  function IndexOf(s: seq<Character>, nickname: string): (r: int)
    ensures -1 <= r < |s|
    ensures r == -1 <==> !Has(s, nickname)
    ensures 0 <= r ==> s[r].nickname == nickname
    ensures 0 <= r ==> forall j :: 0 <= j < r ==> s[j].nickname != nickname
  {
    if s == [] then -1
    else if s[0].nickname == nickname then 0
    else
      var k := IndexOf(s[1..], nickname);
      assert forall j :: 1 <= j < |s| ==> s[j] == s[1..][j - 1];
      if k < 0 then -1 else k + 1
  }

  /** The entries of `s` whose nickname differs, in their original order:
    * the reference meaning of deleting `nickname` from a collection. */
  function Others(s: seq<Character>, nickname: string): (r: seq<Character>)
    ensures |r| <= |s|
  {
    if s == [] then []
    else if s[0].nickname == nickname then Others(s[1..], nickname)
    else [s[0]] + Others(s[1..], nickname)
  }

  /** Others keeps exactly the entries with a different nickname. */
  lemma {:induction false} OthersMembers(s: seq<Character>, nickname: string)
    ensures forall x :: x in Others(s, nickname) <==> x in s && x.nickname != nickname
  {
    if s != [] {
      OthersMembers(s[1..], nickname);
      assert s == [s[0]] + s[1..];
    }
  }

  /** Removing an absent nickname changes nothing. */
  lemma {:induction false} OthersWhenAbsent(s: seq<Character>, nickname: string)
    requires !Has(s, nickname)
    ensures Others(s, nickname) == s
  {
    if s != [] {
      assert s[0].nickname != nickname;
      assert !Has(s[1..], nickname) by {
        forall k | 0 <= k < |s[1..]| ensures s[1..][k].nickname != nickname {
          assert s[1..][k] == s[k + 1];
        }
      }
      OthersWhenAbsent(s[1..], nickname);
    }
  }

  /** In a collection with unique nicknames, cutting out the first match (what
    * the store's delete does) is the same as keeping all the others. */
  lemma {:induction false} OthersIsRemoval(s: seq<Character>, nickname: string)
    requires UniqueNicknames(s)
    requires Has(s, nickname)
    ensures var i := IndexOf(s, nickname); Others(s, nickname) == s[..i] + s[i + 1..]
  {
    var i := IndexOf(s, nickname);
    if i == 0 {
      assert !Has(s[1..], nickname) by {
        forall k | 0 <= k < |s[1..]| ensures s[1..][k].nickname != nickname {
          assert s[1..][k] == s[k + 1];
        }
      }
      OthersWhenAbsent(s[1..], nickname);
    } else {
      var t := s[1..];
      assert UniqueNicknames(t) by {
        forall a, b | 0 <= a < b < |t| ensures t[a].nickname != t[b].nickname {
          assert t[a] == s[a + 1] && t[b] == s[b + 1];
        }
      }
      assert t[i - 1] == s[i];
      assert Has(t, nickname);
      OthersIsRemoval(t, nickname);
      assert IndexOf(t, nickname) == i - 1;
      assert s[..i] + s[i + 1..] == [s[0]] + (t[..i - 1] + t[i..]);
    }
  }

  /** Cutting one entry out keeps the other nicknames unique. */
  lemma RemovalKeepsUnique(s: seq<Character>, i: int)
    requires UniqueNicknames(s)
    requires 0 <= i < |s|
    ensures UniqueNicknames(s[..i] + s[i + 1..])
  {
  }

  /** Appending an entry whose nickname is unused keeps nicknames unique. */
  lemma AppendKeepsUnique(s: seq<Character>, x: Character)
    requires UniqueNicknames(s)
    requires !Has(s, x.nickname)
    ensures UniqueNicknames(s + [x])
  {
  }

  /** Giving one entry an unused nickname keeps nicknames unique. */
  lemma RenameKeepsUnique(s: seq<Character>, i: int, nickname: string)
    requires UniqueNicknames(s)
    requires 0 <= i < |s|
    requires !Has(s, nickname)
    ensures UniqueNicknames(s[i := s[i].(nickname := nickname)])
  {
  }

  /** In a collection with unique nicknames, an entry is the first (and only)
    * match of its own nickname. */
  lemma UniqueIndex(s: seq<Character>, i: int)
    requires UniqueNicknames(s)
    requires 0 <= i < |s|
    ensures IndexOf(s, s[i].nickname) == i
  {
  }

  /** The range loop that stops at the first entry with this nickname. */
  method Locate(s: seq<Character>, nickname: string) returns (index: int)
    ensures index == IndexOf(s, nickname)
  {
    var i := 0;
    while i < |s|
      invariant 0 <= i <= |s|
      invariant forall j :: 0 <= j < i ==> s[j].nickname != nickname
    {
      if s[i].nickname == nickname {
        return i;
      }
      i := i + 1;
    }
    index := -1;
  }

  /** The loop of a rename handler: it remembers the last entry named `target`
    * and gives up, reporting a conflict, at the first entry already named
    * `newNickname` (which may be the target itself). */
  method ScanForRename(s: seq<Character>, target: string, newNickname: string)
    returns (conflict: bool, index: int)
    ensures conflict <==> Has(s, newNickname)
    ensures !conflict ==> -1 <= index < |s|
    ensures !conflict ==> (index == -1 <==> !Has(s, target))
    ensures !conflict && 0 <= index ==> s[index].nickname == target
    ensures !conflict && 0 <= index ==> forall j :: index < j < |s| ==> s[j].nickname != target
  {
    index := -1;
    var i := 0;
    while i < |s|
      invariant 0 <= i <= |s|
      invariant -1 <= index < i
      invariant forall j :: 0 <= j < i ==> s[j].nickname != newNickname
      invariant index == -1 ==> forall j :: 0 <= j < i ==> s[j].nickname != target
      invariant 0 <= index ==> s[index].nickname == target
      invariant 0 <= index ==> forall j :: index < j < i ==> s[j].nickname != target
    {
      if s[i].nickname == target {
        index := i;
      }
      if s[i].nickname == newNickname {
        return true, index;
      }
      i := i + 1;
    }
    conflict := false;
  }
}
