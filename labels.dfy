/** The node labels of the three ngac-hypergraph files and the string tests
    their detectors apply to them. Unlike the DAG, an attribute node carries
    its owner: `f'{user}_{key}:{value}'`, e.g. "User_3_UserType:Admin". */
module Labels {
  import opened Domain

  datatype Label =
    | User(i: nat)                                        // "User_i"
    | UserAttr(i: nat, ukey: UserKey, uvalue: UserValue)  // "User_i_UserType:Admin"
    | Resource(i: nat)                                    // "Resource_i"
    | ResAttr(i: nat, rkey: ResKey, rvalue: ResValue)     // "Resource_i_ResourceType:EC2"
    | Perm(p: Permission)                                 // "iam:PassRole"
    | PC(c: PolicyClass)                                  // "IAM"

  // ---------------------------------------------------------------------------
  // Printing
  // ---------------------------------------------------------------------------

  predicate IsDigit(c: char)
  {
    '0' <= c <= '9'
  }

  function Digit(d: nat): (c: char)
    requires d < 10
    ensures IsDigit(c)
  {
    ('0' as int + d) as char
  }

  /** Python's `str(n)` for a natural number. */
  function NatString(n: nat): (s: string)
    ensures |s| >= 1 && forall k :: 0 <= k < |s| ==> IsDigit(s[k])
    ensures n >= 10 ==> |s| >= 2
  {
    if n < 10 then [Digit(n)] else NatString(n / 10) + [Digit(n % 10)]
  }

  /** The `_key:value` tail of a user attribute node. */
  function UserSuffix(k: UserKey, v: UserValue): string
  {
    "_" + UserKeyName(k) + ":" + UserValueName(v)
  }

  /** The `_key:value` tail of a resource attribute node. */
  function ResSuffix(k: ResKey, v: ResValue): string
  {
    "_" + ResKeyName(k) + ":" + ResValueName(v)
  }

  /** The string each label stands for; user and user-attribute nodes begin
      with `User_`, resource and resource-attribute nodes with `Resource_`. */
  function Render(l: Label): (r: string)
    ensures l.User? || l.UserAttr? ==> |r| > 5 && r[..5] == "User_"
    ensures l.Resource? || l.ResAttr? ==> |r| > 9 && r[..9] == "Resource_"
  {
    match l
    case User(i) => "User_" + NatString(i)
    case UserAttr(i, k, v) => "User_" + (NatString(i) + UserSuffix(k, v))
    case Resource(i) => "Resource_" + NatString(i)
    case ResAttr(i, k, v) => "Resource_" + (NatString(i) + ResSuffix(k, v))
    case Perm(p) => PermissionName(p)
    case PC(c) => PolicyClassName(c)
  }

  /** `t` occurs in `s` at position `i`. */
  predicate OccursAt(s: string, t: string, i: nat)
  {
    i + |t| <= |s| && s[i..i + |t|] == t
  }

  /** Python's `t in s` on strings. */
  predicate Contains(s: string, t: string)
  {
    exists i: nat | i <= |s| :: OccursAt(s, t, i)
  }

  /** `'User_' in x`, the test that selects the nodes the user scans start from. */
  predicate IsUserLabel(l: Label)
  {
    Contains(Render(l), "User_")
  }

  /** `'Resource_' in x`. */
  predicate IsResourceLabel(l: Label)
  {
    Contains(Render(l), "Resource_")
  }

  /** `member in ['IAM', 'EC2', 'S3', 'KMS', 'RDS']`. */
  predicate IsClassLabel(l: Label)
  {
    Render(l) in ["IAM", "EC2", "S3", "KMS", "RDS"]
  }

  // ---------------------------------------------------------------------------
  // The string tests in terms of the labels
  // ---------------------------------------------------------------------------

  lemma PrefixContains(t: string, r: string)
    ensures Contains(t + r, t)
  {
    assert OccursAt(t + r, t, 0);
  }

  /** A string lacking one of the characters of `t` does not contain `t`. */
  lemma MissingChar(s: string, t: string, k: nat)
    requires k < |t| && t[k] !in s
    ensures !Contains(s, t)
  {
    forall i: nat | i <= |s| ensures !OccursAt(s, t, i) {
      if i + |t| <= |s| {
        assert s[i..i + |t|][k] == s[i + k];
      }
    }
  }

  lemma NoLetterInNumber(n: nat, c: char)
    requires !IsDigit(c)
    ensures c !in NatString(n)
  {
  }

  lemma UserSuffixLetters(k: UserKey, v: UserValue)
    ensures 'R' !in UserSuffix(k, v)
  {
    assert 'R' !in UserKeyName(k);
    assert 'R' !in UserValueName(v);
  }

  lemma ResSuffixLetters(k: ResKey, v: ResValue)
    ensures 'U' !in ResSuffix(k, v)
  {
    assert 'U' !in ResKeyName(k);
    assert 'U' !in ResValueName(v);
  }

  /** Permission and policy-class names hold no underscore. */
  lemma NamesLackUnderscore(l: Label)
    requires l.Perm? || l.PC?
    ensures '_' !in Render(l)
  {
    match l
    case Perm(p) => PermissionLacksUnderscore(p);
    case PC(c) =>
  }

  lemma PermissionLacksUnderscore(p: Permission)
    ensures '_' !in PermissionName(p)
  {
    match p
    case PassRole =>
    case RunInstances =>
    case PutObject =>
    case AttachRolePolicy =>
    case UpdateRole =>
    case UpdateAssumeRolePolicy =>
  }

  /** The user test selects exactly the users and their attribute nodes. */
  lemma UserLabelTest(l: Label)
    ensures IsUserLabel(l) <==> l.User? || l.UserAttr?
  {
    match l
    case User(i) => PrefixContains("User_", NatString(i));
    case UserAttr(i, k, v) => PrefixContains("User_", NatString(i) + UserSuffix(k, v));
    case Resource(i) =>
      NoLetterInNumber(i, 'U');
      MissingChar(Render(l), "User_", 0);
    case ResAttr(i, k, v) =>
      NoLetterInNumber(i, 'U');
      ResSuffixLetters(k, v);
      MissingChar(Render(l), "User_", 0);
    case Perm(p) =>
      NamesLackUnderscore(l);
      MissingChar(Render(l), "User_", 4);
    case PC(c) =>
      NamesLackUnderscore(l);
      MissingChar(Render(l), "User_", 4);
  }

  /** The resource test selects exactly the resources and their attribute nodes. */
  lemma ResourceLabelTest(l: Label)
    ensures IsResourceLabel(l) <==> l.Resource? || l.ResAttr?
  {
    match l
    case Resource(i) => PrefixContains("Resource_", NatString(i));
    case ResAttr(i, k, v) => PrefixContains("Resource_", NatString(i) + ResSuffix(k, v));
    case User(i) =>
      NoLetterInNumber(i, 'R');
      MissingChar(Render(l), "Resource_", 0);
    case UserAttr(i, k, v) =>
      NoLetterInNumber(i, 'R');
      UserSuffixLetters(k, v);
      MissingChar(Render(l), "Resource_", 0);
    case Perm(p) =>
      NamesLackUnderscore(l);
      MissingChar(Render(l), "Resource_", 8);
    case PC(c) =>
      NamesLackUnderscore(l);
      MissingChar(Render(l), "Resource_", 8);
  }

  /** The policy-class test selects exactly the policy-class nodes. */
  lemma ClassLabelTest(l: Label)
    ensures IsClassLabel(l) <==> l.PC?
  {
    match l
    case PC(c) =>
    case Perm(p) => assert |PermissionName(p)| > 3;
    case User(i) =>
    case UserAttr(i, k, v) =>
    case Resource(i) =>
    case ResAttr(i, k, v) =>
  }

  // ---------------------------------------------------------------------------
  // Distinct labels print as distinct strings
  // ---------------------------------------------------------------------------

  lemma {:induction false} NatStringInjective(m: nat, n: nat)
    ensures m != n ==> NatString(m) != NatString(n)
  {
    if m != n && m >= 10 && n >= 10 {
      var sm, sn := NatString(m), NatString(n);
      assert sm[..|sm| - 1] == NatString(m / 10);
      assert sn[..|sn| - 1] == NatString(n / 10);
      if m % 10 == n % 10 {
        NatStringInjective(m / 10, n / 10);
      } else {
        assert sm[|sm| - 1] != sn[|sn| - 1];
      }
    } else if m != n && m < 10 && n < 10 {
      assert NatString(m)[0] != NatString(n)[0];
    }
  }

  /** A digit string followed by nothing or by a non-digit. */
  predicate NumberThenStop(a: string, r: string)
  {
    (forall k :: 0 <= k < |a| ==> IsDigit(a[k])) && (r == [] || !IsDigit(r[0]))
  }

  lemma ShorterNumberDiffers(a: string, r1: string, b: string, r2: string)
    ensures NumberThenStop(a, r1) && NumberThenStop(b, r2) && |a| < |b| ==> a + r1 != b + r2
  {
    if NumberThenStop(a, r1) && NumberThenStop(b, r2) && |a| < |b| {
      if r1 == [] {
        assert |a + r1| < |b + r2|;
      } else {
        assert (a + r1)[|a|] != (b + r2)[|a|];
      }
    }
  }

  /** A number and what follows it can be told apart from another number and its tail. */
  lemma NumberSplit(a: string, r1: string, b: string, r2: string)
    requires NumberThenStop(a, r1) && NumberThenStop(b, r2)
    ensures a != b || r1 != r2 ==> a + r1 != b + r2
  {
    ShorterNumberDiffers(a, r1, b, r2);
    ShorterNumberDiffers(b, r2, a, r1);
    if |a| == |b| && a != b {
      var k :| 0 <= k < |a| && a[k] != b[k];
      assert (a + r1)[k] != (b + r2)[k];
    } else if |a| == |b| && r1 != r2 {
      assert (a + r1)[|a|..] == r1 && (b + r2)[|b|..] == r2;
    }
  }

  lemma SamePrefix(p: string, x: string, y: string)
    ensures x != y ==> p + x != p + y
  {
    assert (p + x)[|p|..] == x && (p + y)[|p|..] == y;
  }

  lemma UserSuffixInjective(k1: UserKey, v1: UserValue, k2: UserKey, v2: UserValue)
    ensures (k1, v1) != (k2, v2) ==> UserSuffix(k1, v1) != UserSuffix(k2, v2)
  {
    var s1, s2 := UserSuffix(k1, v1), UserSuffix(k2, v2);
    if k1 != k2 {
      assert s1[1] != s2[1];
    } else if v1 != v2 {
      assert UserValueName(v1) != UserValueName(v2);
      SamePrefix("_" + UserKeyName(k1) + ":", UserValueName(v1), UserValueName(v2));
    }
  }

  lemma ResSuffixInjective(k1: ResKey, v1: ResValue, k2: ResKey, v2: ResValue)
    ensures (k1, v1) != (k2, v2) ==> ResSuffix(k1, v1) != ResSuffix(k2, v2)
  {
    var s1, s2 := ResSuffix(k1, v1), ResSuffix(k2, v2);
    if k1 != k2 {
      assert s1[1] != s2[1] || |s1| != |s2|;
    } else if v1 != v2 {
      assert ResValueName(v1) != ResValueName(v2);
      SamePrefix("_" + ResKeyName(k1) + ":", ResValueName(v1), ResValueName(v2));
    }
  }

  /** Two user-side labels with different contents print differently. */
  lemma UserSideInjective(x: Label, y: Label)
    requires (x.User? || x.UserAttr?) && (y.User? || y.UserAttr?)
    ensures x != y ==> Render(x) != Render(y)
  {
    var tx := if x.User? then [] else UserSuffix(x.ukey, x.uvalue);
    var ty := if y.User? then [] else UserSuffix(y.ukey, y.uvalue);
    assert Render(x) == "User_" + (NatString(x.i) + tx);
    assert Render(y) == "User_" + (NatString(y.i) + ty);
    if x.UserAttr? && y.UserAttr? {
      UserSuffixInjective(x.ukey, x.uvalue, y.ukey, y.uvalue);
    }
    NatStringInjective(x.i, y.i);
    NumberSplit(NatString(x.i), tx, NatString(y.i), ty);
    SamePrefix("User_", NatString(x.i) + tx, NatString(y.i) + ty);
  }

  /** Two resource-side labels with different contents print differently. */
  lemma ResourceSideInjective(x: Label, y: Label)
    requires (x.Resource? || x.ResAttr?) && (y.Resource? || y.ResAttr?)
    ensures x != y ==> Render(x) != Render(y)
  {
    var tx := if x.Resource? then [] else ResSuffix(x.rkey, x.rvalue);
    var ty := if y.Resource? then [] else ResSuffix(y.rkey, y.rvalue);
    assert Render(x) == "Resource_" + (NatString(x.i) + tx);
    assert Render(y) == "Resource_" + (NatString(y.i) + ty);
    if x.ResAttr? && y.ResAttr? {
      ResSuffixInjective(x.rkey, x.rvalue, y.rkey, y.rvalue);
    }
    NatStringInjective(x.i, y.i);
    NumberSplit(NatString(x.i), tx, NatString(y.i), ty);
    SamePrefix("Resource_", NatString(x.i) + tx, NatString(y.i) + ty);
  }

  /** Which of the three families a label prints into. */
  function Family(l: Label): nat
  {
    if l.User? || l.UserAttr? then 0 else if l.Resource? || l.ResAttr? then 1 else 2
  }

  /** Labels of different families print differently. */
  lemma FamiliesDiffer(x: Label, y: Label)
    ensures Family(x) != Family(y) ==> Render(x) != Render(y)
  {
    UserLabelTest(x);
    UserLabelTest(y);
    ResourceLabelTest(x);
    ResourceLabelTest(y);
  }

  lemma NamedInjective(x: Label, y: Label)
    requires (x.Perm? || x.PC?) && (y.Perm? || y.PC?)
    ensures x != y ==> Render(x) != Render(y)
  {
    if x.Perm? && y.PC? {
      assert |Render(x)| > 3 >= |Render(y)|;
    } else if x.PC? && y.Perm? {
      assert |Render(y)| > 3 >= |Render(x)|;
    }
  }

  /** Distinct labels are distinct strings, so the labels stand for exactly
      the nodes hypernetx keeps apart. */
  lemma RenderInjective(x: Label, y: Label)
    ensures x != y ==> Render(x) != Render(y)
  {
    FamiliesDiffer(x, y);
    if Family(x) == Family(y) == 0 {
      UserSideInjective(x, y);
    } else if Family(x) == Family(y) == 1 {
      ResourceSideInjective(x, y);
    } else if Family(x) == Family(y) == 2 {
      NamedInjective(x, y);
    }
  }
}
