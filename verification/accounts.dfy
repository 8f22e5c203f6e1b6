/**
 * The account editor's list and record updates: recomputing an account's
 * data length from its Token-2022 extensions, resetting it on a type
 * change, and adding, replacing and removing accounts by index. Each is a
 * pure function from the old value to the one handed to the state setter.
 */
module Accounts {
  import opened Types
  import Text
  import Layout

  // ------------------------------------------------------------- extensions

  /** Bytes the listed extensions add, counting repeats. */
  function ExtensionBytes(exts: seq<Extension>): nat {
    if exts == [] then 0 else ExtensionSize(exts[0]) + ExtensionBytes(exts[1..])
  }

  lemma {:induction false} ExtensionBytesAppend(a: seq<Extension>, b: seq<Extension>)
    ensures ExtensionBytes(a + b) == ExtensionBytes(a) + ExtensionBytes(b)
  {
    if a == [] {
      assert a + b == b;
    } else {
      assert (a + b)[1..] == a[1..] + b;
      ExtensionBytesAppend(a[1..], b);
    }
  }

  /** The data length the extension handlers compute: base size plus extensions. */
  function SyncedLength(kind: AccountKind, exts: seq<Extension>): nat {
    BaseSize(kind) + ExtensionBytes(exts)
  }

  /** The account's data length is the one its type and extensions imply. */
  predicate LengthSynced(a: Account) {
    a.dataLength == SyncedLength(a.kind, a.extensions)
  }

  /** `(account.extensions || []).filter((e) => e !== ext)`. */
  function Without(exts: seq<Extension>, e: Extension): (r: seq<Extension>)
    ensures e !in r
    ensures |r| <= |exts|
    ensures forall x :: x in r ==> x in exts
  {
    if exts == [] then []
    else if exts[0] == e then Without(exts[1..], e)
    else [exts[0]] + Without(exts[1..], e)
  }

  /**
   * `Without` is a filter: it distributes over concatenation, and on one
   * element it keeps or drops that element. Together these fix the result,
   * so the surviving extensions keep their order.
   */
  lemma {:induction false} WithoutAppend(a: seq<Extension>, b: seq<Extension>, e: Extension)
    ensures Without(a + b, e) == Without(a, e) + Without(b, e)
  {
    if a == [] {
      assert a + b == b;
    } else {
      assert (a + b)[1..] == a[1..] + b;
      WithoutAppend(a[1..], b, e);
    }
  }

  lemma WithoutSingle(x: Extension, e: Extension)
    ensures Without([x], e) == if x == e then [] else [x]
  {
    assert [x][1..] == [];
  }

  /** Occurrences of other extensions are all kept. */
  lemma {:induction false} WithoutCounts(exts: seq<Extension>, e: Extension)
    ensures multiset(Without(exts, e))[e] == 0
    ensures forall x :: x != e ==> multiset(Without(exts, e))[x] == multiset(exts)[x]
  {
    if exts != [] {
      var rest := Without(exts[1..], e);
      WithoutCounts(exts[1..], e);
      assert exts == [exts[0]] + exts[1..];
      assert multiset(exts) == multiset([exts[0]]) + multiset(exts[1..]);
      if exts[0] != e {
        assert multiset(Without(exts, e)) == multiset([exts[0]]) + multiset(rest);
      }
    }
  }

  /** Filtering out an extension that is not there changes nothing. */
  lemma {:induction false} WithoutAbsent(exts: seq<Extension>, e: Extension)
    requires e !in exts
    ensures Without(exts, e) == exts
  {
    if exts != [] {
      assert e !in exts[1..];
      WithoutAbsent(exts[1..], e);
      assert exts == [exts[0]] + exts[1..];
    }
  }

  /** `handleAddExtension`: append the extension and recompute the length. */
  function AddExtension(a: Account, e: Extension): (r: Account)
    ensures r.extensions == a.extensions + [e]
    ensures r.dataLength == BaseSize(a.kind) + ExtensionBytes(a.extensions) + ExtensionSize(e)
    ensures r.name == a.name && r.kind == a.kind && r.customFields == a.customFields
    ensures LengthSynced(r)
  {
    var exts := a.extensions + [e];
    ExtensionBytesAppend(a.extensions, [e]);
    a.(extensions := exts, dataLength := SyncedLength(a.kind, exts))
  }

  /** `handleRemoveExtension`: drop every occurrence and recompute the length. */
  function RemoveExtension(a: Account, e: Extension): (r: Account)
    ensures r.extensions == Without(a.extensions, e)
    ensures r.name == a.name && r.kind == a.kind && r.customFields == a.customFields
    ensures LengthSynced(r)
  {
    var exts := Without(a.extensions, e);
    a.(extensions := exts, dataLength := SyncedLength(a.kind, exts))
  }

  /** On a synced account, adding an extension grows the data by exactly its size. */
  lemma AddExtensionGrows(a: Account, e: Extension)
    requires LengthSynced(a)
    ensures AddExtension(a, e).dataLength == a.dataLength + ExtensionSize(e)
  {
  }

  /**
   * Adding an extension the account does not have and removing it again
   * gives back the account, provided its length was synced to begin with.
   */
  lemma AddThenRemove(a: Account, e: Extension)
    requires LengthSynced(a)
    requires e !in a.extensions
    ensures RemoveExtension(AddExtension(a, e), e) == a
  {
    WithoutAppend(a.extensions, [e], e);
    WithoutSingle(e, e);
    WithoutAbsent(a.extensions, e);
    assert a.extensions + [] == a.extensions;
  }

  /** Removing twice is removing once. */
  lemma RemoveIdempotent(a: Account, e: Extension)
    ensures RemoveExtension(RemoveExtension(a, e), e) == RemoveExtension(a, e)
  {
    WithoutAbsent(Without(a.extensions, e), e);
  }

  // ------------------------------------------------------------ type change

  /**
   * The type selector's handler: the length becomes the new type's base
   * size, and the extensions survive only when the new type is a Token-2022
   * one.
   */
  function ChangeKind(a: Account, k: AccountKind): (r: Account)
    ensures r.kind == k && r.dataLength == BaseSize(k)
    ensures r.extensions == (if k == Token2022Account || k == Token2022Mint then a.extensions else [])
    ensures r.name == a.name && r.customFields == a.customFields
  {
    Token2022Kinds(k);
    a.(kind := k, dataLength := BaseSize(k), extensions := if IsToken2022(k) then a.extensions else [])
  }

  /**
   * After a type change the length is synced exactly when no extension
   * bytes were kept: the handler resets the length to the base size even
   * for kept extensions.
   */
  lemma ChangeKindSynced(a: Account, k: AccountKind)
    ensures LengthSynced(ChangeKind(a, k)) <==> ExtensionBytes(ChangeKind(a, k).extensions) == 0
  {
  }

  /** A non-empty extension list always carries bytes. */
  lemma ExtensionBytesPositive(exts: seq<Extension>)
    ensures ExtensionBytes(exts) == 0 <==> exts == []
  {
    if exts != [] {
      assert ExtensionBytes(exts) >= ExtensionSize(exts[0]) > 0;
    }
  }

  /** So a Token-2022 account that keeps extensions is left out of sync. */
  lemma ChangeKindKeepsStaleLength(a: Account, k: AccountKind)
    requires k == Token2022Account || k == Token2022Mint
    requires a.extensions != []
    ensures !LengthSynced(ChangeKind(a, k))
  {
    ChangeKindSynced(a, k);
    ExtensionBytesPositive(a.extensions);
  }

  // --------------------------------------------------------- account list

  /** The account `addAccount` appends when the list has `n` entries. */
  function NewAccount(n: nat): Account {
    Account("ACCOUNT" + Text.Decimal(n + 1), System, 0, [], [])
  }

  /** `addAccount`. */
  function AddAccount(s: seq<Account>): (r: seq<Account>)
    ensures |r| == |s| + 1
    ensures r[..|s|] == s
    ensures |r[|s|].name| > 7 && r[|s|].name[..7] == "ACCOUNT" && r[|s|].name[7..] == Text.Decimal(|s| + 1)
    ensures r[|s|].kind == System && r[|s|].dataLength == 0
    ensures r[|s|].extensions == [] && r[|s|].customFields == []
  {
    var a := NewAccount(|s|);
    assert a.name[7..] == Text.Decimal(|s| + 1);
    s + [a]
  }

  /**
   * `updateAccount`: store the account at index `i` of a copy. An index
   * within the list replaces that account; the index just past the end
   * appends, as an array assignment there does.
   */
  function UpdateAccount(s: seq<Account>, i: nat, a: Account): (r: seq<Account>)
    requires i <= |s|
    ensures |r| == if i < |s| then |s| else |s| + 1
    ensures r[i] == a
    ensures forall j :: 0 <= j < |s| && j != i ==> r[j] == s[j]
  {
    if i < |s| then s[i := a] else s + [a]
  }

  /** Storing just past the end is what `addAccount` does with its new account. */
  lemma UpdatePastEndAppends(s: seq<Account>)
    ensures UpdateAccount(s, |s|, NewAccount(|s|)) == AddAccount(s)
  {
  }

  /** `removeAccount`: keep every account whose index is not `i`. */
  function RemoveAccount(s: seq<Account>, i: nat): (r: seq<Account>)
    ensures i < |s| ==> |r| == |s| - 1
    ensures i >= |s| ==> r == s
    ensures forall j :: 0 <= j < i && j < |r| ==> r[j] == s[j]
    ensures forall j :: i <= j < |r| ==> r[j] == s[j + 1]
  {
    if i < |s| then s[..i] + s[i + 1..] else s
  }

  /** Writing back the account already at `i` changes nothing. */
  lemma UpdateSame(s: seq<Account>, i: nat)
    requires i < |s|
    ensures UpdateAccount(s, i, s[i]) == s
  {
  }

  /** Removing the account just added restores the list. */
  lemma AddThenRemoveAccount(s: seq<Account>)
    ensures RemoveAccount(AddAccount(s), |s|) == s
  {
    assert AddAccount(s)[..|s|] == s;
  }

  /**
   * Removal then re-insertion by update: removing `i` and comparing with
   * the original shows every other account, in order, once.
   */
  lemma RemoveSplits(s: seq<Account>, i: nat)
    requires i < |s|
    ensures s == RemoveAccount(s, i)[..i] + [s[i]] + RemoveAccount(s, i)[i..]
  {
    var r := RemoveAccount(s, i);
    assert r[..i] == s[..i];
    assert r[i..] == s[i + 1..];
    assert s == s[..i] + [s[i]] + s[i + 1..];
  }

  // ------------------------------------------------------- effect on layout

  /** An update that keeps the data length leaves every account where it was. */
  lemma UpdateKeepsStarts(s: seq<Account>, i: nat, a: Account, k: nat)
    requires i < |s| && a.dataLength == s[i].dataLength
    requires k <= |s|
    ensures Layout.AccountStart(UpdateAccount(s, i, a), k) == Layout.AccountStart(s, k)
  {
    Layout.StartsDependOnLengthsOnly(UpdateAccount(s, i, a), s, k);
  }

  /** Adding an account leaves the earlier accounts where they were. */
  lemma {:induction false} AddKeepsStarts(s: seq<Account>, k: nat)
    requires k <= |s|
    ensures Layout.AccountStart(AddAccount(s), k) == Layout.AccountStart(s, k)
  {
    if k > 0 {
      AddKeepsStarts(s, k - 1);
      assert AddAccount(s)[k - 1] == s[k - 1];
    }
  }

  /** From an aligned start, an empty account's block is already aligned. */
  lemma AlignedStep(c: nat)
    requires c % 8 == 0
    ensures Layout.NextStart(c, 0) == c + 10336
  {
    assert c + 10336 == 8 * (c / 8 + 1292);
  }

  /**
   * The appended account is a plain System account of length zero: it
   * shows a DATA marker, and the next free position is 10336 bytes past
   * its start.
   */
  lemma NewAccountLayout(s: seq<Account>)
    ensures Layout.ShowsDataMarker(AddAccount(s)[|s|])
    ensures Layout.AccountStart(AddAccount(s), |s| + 1) == Layout.AccountStart(AddAccount(s), |s|) + 10336
  {
    var r := AddAccount(s);
    var c := Layout.AccountStart(r, |s|);
    Layout.StartsAligned(r, |s|);
    assert Layout.AccountStart(r, |s| + 1) == Layout.NextStart(c, 0);
    AlignedStep(c);
  }
}
