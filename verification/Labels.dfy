/** Domain names and their labels: splitting at dots, the suffixes of a name, and the syntax check
    (contracts/nns/contract.go). */
module Labels {
  import opened Storage

  const MAX_ROOT_LENGTH := 16
  const MAX_FRAGMENT_LENGTH := 63
  const MIN_NAME_LENGTH := 3
  const MAX_NAME_LENGTH := 255

  /** Pieces between dots; a name without dots is one piece. */
  function Split(name: string): (r: seq<string>)
    ensures 1 <= |r|
  {
    if name == "" then [""]
    else
      var rest := Split(name[1..]);
      if name[0] == '.' then [""] + rest else [[name[0]] + rest[0]] + rest[1..]
  }

  function Join(labels: seq<string>): string
    requires labels != []
  {
    if |labels| == 1 then labels[0] else labels[0] + "." + Join(labels[1..])
  }

  predicate IsTLD(name: string) {
    |Split(name)| == 1
  }

  lemma {:induction false} JoinSplit(name: string)
    ensures Join(Split(name)) == name
  {
    if name != "" {
      JoinSplit(name[1..]);
      var rest := Split(name[1..]);
      if name[0] == '.' {
        assert Split(name)[1..] == rest;
      } else {
        assert Split(name)[1..] == rest[1..];
        if |rest| == 1 {
          assert Join(rest) == rest[0];
        } else {
          assert Join(rest) == rest[0] + "." + Join(rest[1..]);
        }
      }
    }
  }

  predicate NoDots(piece: string) {
    forall c :: c in piece ==> c != '.'
  }

  lemma {:induction false} SplitHasNoDots(name: string)
    ensures forall l :: l in Split(name) ==> NoDots(l)
  {
    if name != "" {
      SplitHasNoDots(name[1..]);
      var rest := Split(name[1..]);
      assert rest[0] in rest;
      forall l | l in Split(name)
        ensures NoDots(l)
      {
        assert l == Split(name)[0] || l in rest;
      }
    }
  }

  lemma {:induction false} SplitAppend(piece: string, rest: string)
    requires NoDots(piece)
    ensures Split(piece) == [piece]
    ensures Split(piece + "." + rest) == [piece] + Split(rest)
  {
    if piece == "" {
      assert ("." + rest)[1..] == rest;
      assert piece + "." + rest == "." + rest;
    } else {
      assert piece[0] in piece;
      assert forall c :: c in piece[1..] ==> c in piece;
      SplitAppend(piece[1..], rest);
      assert (piece + "." + rest)[1..] == piece[1..] + "." + rest;
      assert [piece[0]] + piece[1..] == piece;
    }
  }

  /** Splitting inverts joining, so names and piece lists correspond. */
  lemma {:induction false} SplitJoin(labels: seq<string>)
    requires labels != [] && forall l :: l in labels ==> NoDots(l)
    ensures Split(Join(labels)) == labels
  {
    assert labels[0] in labels && forall l :: l in labels[1..] ==> l in labels;
    hide NoDots;
    SplitAppend(labels[0], "");
    if 1 < |labels| {
      SplitJoin(labels[1..]);
      SplitAppend(labels[0], Join(labels[1..]));
      assert [labels[0]] + labels[1..] == labels;
    } else {
      assert labels == [labels[0]];
    }
  }

  /** The name without its first i labels. */
  function Suffix(name: string, i: nat): string
    requires i < |Split(name)|
  {
    Join(Split(name)[i..])
  }

  lemma SuffixSplits(name: string, i: nat)
    requires i < |Split(name)|
    ensures Split(Suffix(name, i)) == Split(name)[i..]
  {
    SplitHasNoDots(name);
    assert forall l :: l in Split(name)[i..] ==> l in Split(name);
    SplitJoin(Split(name)[i..]);
  }

  /** Characters and dots before the i-th label. */
  function Offset(labels: seq<string>, i: nat): nat
    requires i <= |labels|
  {
    if i == 0 then 0 else Offset(labels, i - 1) + |labels[i - 1]| + 1
  }

  lemma {:induction false} OffsetShift(labels: seq<string>, i: nat)
    requires 1 <= i <= |labels|
    ensures Offset(labels, i) == |labels[0]| + 1 + Offset(labels[1..], i - 1)
  {
    if 1 < i {
      OffsetShift(labels, i - 1);
      assert labels[1..][i - 2] == labels[i - 1];
    }
  }

  lemma {:induction false} JoinFrom(labels: seq<string>, i: nat)
    requires i < |labels|
    ensures Offset(labels, i) <= |Join(labels)|
    ensures Join(labels)[Offset(labels, i)..] == Join(labels[i..])
  {
    if i == 0 {
      assert labels[0..] == labels;
    } else {
      OffsetShift(labels, i);
      JoinFrom(labels[1..], i - 1);
      assert labels[1..][i - 1..] == labels[i..];
      var head := labels[0] + ".";
      assert Join(labels) == head + Join(labels[1..]);
      assert Join(labels)[|head|..] == Join(labels[1..]);
      assert Join(labels)[Offset(labels, i)..] == Join(labels)[|head|..][Offset(labels[1..], i - 1)..];
    }
  }

  /** Cutting a name by character offset is dropping labels. */
  lemma SuffixIsCut(name: string, i: nat)
    requires i < |Split(name)|
    ensures Offset(Split(name), i) <= |name|
    ensures name[Offset(Split(name), i)..] == Suffix(name, i)
  {
    JoinSplit(name);
    JoinFrom(Split(name), i);
  }

  lemma SuffixShrinks(name: string, i: nat, j: nat)
    requires i < j < |Split(name)|
    ensures |Suffix(name, j)| < |Suffix(name, i)|
  {
    SuffixIsCut(name, i);
    SuffixIsCut(name, j);
    OffsetGrows(Split(name), i, j);
  }

  lemma {:induction false} OffsetGrows(labels: seq<string>, i: nat, j: nat)
    requires i < j <= |labels|
    ensures Offset(labels, i) < Offset(labels, j)
  {
    if i + 1 < j {
      OffsetGrows(labels, i, j - 1);
    }
  }

  // ---- syntax ----

  predicate IsAlNum(c: char) {
    'a' <= c <= 'z' || '0' <= c <= '9'
  }

  predicate CheckFragment(v: string, isRoot: bool) {
    && 0 < |v| <= (if isRoot then MAX_ROOT_LENGTH else MAX_FRAGMENT_LENGTH)
    && (if isRoot then 'a' <= v[0] <= 'z' else IsAlNum(v[0]))
    && (forall i :: 1 <= i < |v| - 1 ==> v[i] == '-' || IsAlNum(v[i]))
    && IsAlNum(v[|v| - 1])
  }

  /** A well-formed domain name. */
  predicate WellFormed(name: string) {
    var labels := Split(name);
    && MIN_NAME_LENGTH <= |name| <= MAX_NAME_LENGTH
    && forall i :: 0 <= i < |labels| ==> CheckFragment(labels[i], i == |labels| - 1)
  }

  /** A label is letters, digits and hyphens in lower case, no hyphen first or last, at most 63 of them; the
      root label has at most 16 and begins with a letter. */
  lemma LabelIff(v: string, isRoot: bool)
    ensures CheckFragment(v, isRoot) <==>
      && 1 <= |v| <= (if isRoot then 16 else 63)
      && (forall c :: c in v ==> 'a' <= c <= 'z' || '0' <= c <= '9' || c == '-')
      && v[0] != '-' && v[|v| - 1] != '-' && (isRoot ==> 'a' <= v[0] <= 'z')
  {
    if CheckFragment(v, isRoot) {
      forall c | c in v
        ensures 'a' <= c <= 'z' || '0' <= c <= '9' || c == '-'
      {
        var i :| 0 <= i < |v| && v[i] == c;
      }
    } else if 1 <= |v| <= (if isRoot then 16 else 63) {
      assert forall i :: 0 <= i < |v| ==> v[i] in v;
    }
  }

  predicate AreLabels(labels: seq<string>) {
    labels != [] && forall i :: 0 <= i < |labels| ==> CheckFragment(labels[i], i == |labels| - 1)
  }

  /** The names are exactly the lists of labels joined by dots, the last a root label, of 3 to 255 characters. */
  lemma NameIff(name: string)
    ensures WellFormed(name) <==> 3 <= |name| <= 255 && exists labels :: AreLabels(labels) && Join(labels) == name
  {
    JoinSplit(name);
    hide CheckFragment, Split, Join;
    if WellFormed(name) {
      assert AreLabels(Split(name));
    }
    if exists labels :: AreLabels(labels) && Join(labels) == name {
      var labels :| AreLabels(labels) && Join(labels) == name;
      LabelsHaveNoDots(labels);
      SplitJoin(labels);
    }
  }

  lemma LabelsHaveNoDots(labels: seq<string>)
    requires AreLabels(labels)
    ensures forall l :: l in labels ==> NoDots(l)
  {
    forall l | l in labels
      ensures NoDots(l)
    {
      var i :| 0 <= i < |labels| && labels[i] == l;
      LabelIff(l, i == |labels| - 1);
    }
  }

  method CheckFragmentLoop(v: string, isRoot: bool) returns (ok: bool)
    ensures ok == CheckFragment(v, isRoot)
  {
    var maxLength := if isRoot then MAX_ROOT_LENGTH else MAX_FRAGMENT_LENGTH;
    if |v| == 0 || |v| > maxLength {
      return false;
    }
    var c := v[0];
    if isRoot {
      if c < 'a' || c > 'z' {
        return false;
      }
    } else if !IsAlNum(c) {
      return false;
    }
    var i := 1;
    while i < |v| - 1
      invariant 1 <= i
      invariant forall j :: 1 <= j < i && j < |v| - 1 ==> v[j] == '-' || IsAlNum(v[j])
    {
      if v[i] != '-' && !IsAlNum(v[i]) {
        return false;
      }
      i := i + 1;
    }
    return IsAlNum(v[|v| - 1]);
  }

  /** Validates a name and splits it. */
  method SafeSplitAndCheck(name: string) returns (r: Option<seq<string>>)
    ensures r == if WellFormed(name) then Some(Split(name)) else None
  {
    if |name| < MIN_NAME_LENGTH || MAX_NAME_LENGTH < |name| {
      return None;
    }
    var fragments := Split(name);
    for i := 0 to |fragments|
      invariant forall j :: 0 <= j < i ==> CheckFragment(fragments[j], j == |fragments| - 1)
    {
      var ok := CheckFragmentLoop(fragments[i], i == |fragments| - 1);
      if !ok {
        return None;
      }
    }
    return Some(fragments);
  }
}
