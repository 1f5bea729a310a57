/**
 The grouping search: which collections are linked by name, ancestry or a structural sibling.  The
 search compares siblings only within a first-token bucket; it still finds every related pair.
*/
module GroupingSearch {
  import opened Basics
  import opened GroupingComponents

  // A collection by its path parts, normalized name base and whether its name is a bare season or part.
  datatype Named = Named(path: seq<string>, base: string, structural: bool)

  // _related_name_bases
  predicate Related(left: string, right: string) {
    && left != "" && right != "" && |left| >= 5 && |right| >= 5
    && (left == right || right + " " <= left || left + " " <= right)
  }

  function FirstToken(s: string): string {
    if s == "" || s[0] == ' ' then "" else [s[0]] + FirstToken(s[1..])
  }

  lemma {:induction false} TokenOfExtension(s: string, rest: string)
    requires rest == "" || rest[0] == ' '
    ensures FirstToken(s + rest) == FirstToken(s)
  {
    if s == "" {
      assert s + rest == rest;
    } else {
      TokenOfExtension(s[1..], rest);
      assert (s + rest)[1..] == s[1..] + rest;
    }
  }

  // Related names share their first token, so the buckets lose no pair.
  lemma RelatedShareToken(left: string, right: string)
    requires Related(left, right)
    ensures FirstToken(left) == FirstToken(right)
  {
    if right + " " <= left {
      assert left == right + left[|right|..];
      assert left[|right|..][0] == (right + " ")[|right|];
      TokenOfExtension(right, left[|right|..]);
    } else if left + " " <= right {
      assert right == left + right[|left|..];
      assert right[|left|..][0] == (left + " ")[|left|];
      TokenOfExtension(left, right[|left|..]);
    }
  }

  // The words of a name, parted at every blank.
  function Words(s: string): (words: seq<string>)
    ensures words != []
  {
    if s == "" then [""]
    else if s[0] == ' ' then [""] + Words(s[1..])
    else
      var rest := Words(s[1..]);
      [[s[0]] + rest[0]] + rest[1..]
  }

  function Joined(words: seq<string>): string
    requires words != []
  {
    if |words| == 1 then words[0] else words[0] + " " + Joined(words[1..])
  }

  lemma {:induction false} WordsJoined(s: string)
    ensures Joined(Words(s)) == s
  {
    if s != "" {
      var rest := Words(s[1..]);
      WordsJoined(s[1..]);
      if s[0] == ' ' {
        assert Words(s)[1..] == rest;
      } else {
        assert Words(s)[1..] == rest[1..];
      }
    }
  }

  lemma {:induction false} WordsAppended(a: string, b: string)
    ensures Words(a + " " + b) == Words(a) + Words(b)
  {
    var s := a + " " + b;
    if a == "" {
      assert s[0] == ' ' && s[1..] == b;
    } else {
      WordsAppended(a[1..], b);
      assert s[0] == a[0] && s[1..] == a[1..] + " " + b;
      WordsPrepended(a[0], a[1..], s[1..], Words(b));
      assert a == [a[0]] + a[1..] && s == [a[0]] + s[1..];
    }
  }

  lemma WordsPrepended(c: char, a: string, s: string, more: seq<string>)
    requires Words(s) == Words(a) + more
    ensures Words([c] + s) == Words([c] + a) + more
  {
    assert ([c] + s)[1..] == s && ([c] + a)[1..] == a;
  }

  lemma {:induction false} JoinedAppended(a: seq<string>, b: seq<string>)
    requires a != [] && b != []
    ensures Joined(a + b) == Joined(a) + " " + Joined(b)
  {
    assert (a + b)[1..] == a[1..] + b;
    if |a| > 1 {
      JoinedAppended(a[1..], b);
    }
  }

  lemma LongerName(left: string, right: string)
    requires right + " " <= left
    ensures Words(right) <= Words(left)
  {
    var more := left[|right| + 1..];
    assert left == (right + " ") + more;
    WordsAppended(right, more);
  }

  lemma LongerWords(left: string, right: string)
    requires Words(right) <= Words(left)
    ensures left == right || right + " " <= left
  {
    var words, more := Words(right), Words(left)[|Words(right)|..];
    WordsJoined(left);
    WordsJoined(right);
    assert Words(left) == words + more;
    if more != [] {
      JoinedAppended(words, more);
    } else {
      assert Words(left) == words;
    }
  }

  // The words of one name begin the words of the other, and both have five characters.
  ghost predicate WordsBegin(left: string, right: string) {
    |left| >= 5 && |right| >= 5 && (Words(left) <= Words(right) || Words(right) <= Words(left))
  }

  /** Two names are related exactly when both have five characters and the words of one begin the words
      of the other; equal names are, and a mere common start of a word is not enough. */
  lemma RelatedByWords(left: string, right: string)
    ensures Related(left, right) <==> WordsBegin(left, right)
  {
    if Related(left, right) && left != right {
      if right + " " <= left { LongerName(left, right); } else { LongerName(right, left); }
    }
    if Words(right) <= Words(left) {
      LongerWords(left, right);
    } else if Words(left) <= Words(right) {
      LongerWords(right, left);
    }
  }

  lemma RelatedIsSymmetric(left: string, right: string)
    ensures Related(left, right) <==> Related(right, left)
  {
  }

  // ------------------------------------------------------------------------------- buckets

  type Pairs = set<(Node, Node)>

  ghost predicate Indices(active: seq<Named>, members: seq<Node>) {
    forall k :: 0 <= k < |members| ==> members[k] < |active|
  }

  // Normalized bases never start with a space.
  ghost predicate Normal(active: seq<Named>) {
    forall i :: 0 <= i < |active| && active[i].base != "" ==> active[i].base[0] != ' '
  }

  // The members of a first token's bucket, in order.
  function Bucket(active: seq<Named>, members: seq<Node>, token: string): seq<Node>
    requires forall k :: 0 <= k < |members| ==> members[k] < |active|
  {
    if members == [] then []
    else
      var rest := Bucket(active, members[..|members| - 1], token);
      var last := members[|members| - 1];
      if token != "" && FirstToken(active[last].base) == token then rest + [last] else rest
  }

  lemma {:induction false} BucketIff(active: seq<Named>, members: seq<Node>, token: string)
    requires Indices(active, members)
    ensures forall x: Node :: x in Bucket(active, members, token) <==>
      x in members && x < |active| && token != "" && FirstToken(active[x].base) == token
    ensures Indices(active, Bucket(active, members, token))
  {
    if members != [] {
      BucketIff(active, members[..|members| - 1], token);
      assert members == members[..|members| - 1] + [members[|members| - 1]];
    }
  }

  method Buckets(active: seq<Named>, members: seq<Node>) returns (buckets: map<string, seq<Node>>)
    requires Indices(active, members)
    ensures forall t :: t in buckets ==> buckets[t] == Bucket(active, members, t)
    ensures forall t :: t in buckets <==> Bucket(active, members, t) != []
  {
    buckets := map[];
    for k := 0 to |members|
      invariant forall t :: t in buckets ==> buckets[t] == Bucket(active, members[..k], t)
      invariant forall t :: t in buckets <==> Bucket(active, members[..k], t) != []
    {
      assert members[..k + 1][..k] == members[..k];
      var token := FirstToken(active[members[k]].base);
      if token != "" {
        buckets := buckets[token := (if token in buckets then buckets[token] else []) + [members[k]]];
      }
    }
    assert members[..|members|] == members;
  }

  ghost predicate FoundIn(active: seq<Named>, bucket: seq<Node>, x: Node, y: Node)
    requires Indices(active, bucket)
  {
    exists a, b :: 0 <= a < b < |bucket| && bucket[a] == x && bucket[b] == y && Related(active[x].base, active[y].base)
  }

  // Compare one member of a bucket with those after it.
  method CompareAfter(active: seq<Named>, bucket: seq<Node>, a: nat) returns (pairs: Pairs)
    requires Indices(active, bucket) && a < |bucket|
    ensures forall x: Node, y: Node :: (x, y) in pairs <==>
      x == bucket[a] && exists b :: a < b < |bucket| && bucket[b] == y && Related(active[x].base, active[y].base)
  {
    pairs := {};
    for b := a + 1 to |bucket|
      invariant forall x: Node, y: Node :: (x, y) in pairs <==>
        x == bucket[a] && exists c :: a < c < b && bucket[c] == y && Related(active[x].base, active[y].base)
    {
      if Related(active[bucket[a]].base, active[bucket[b]].base) {
        pairs := pairs + {(bucket[a], bucket[b])};
      }
    }
  }

  method CompareBucket(active: seq<Named>, bucket: seq<Node>) returns (pairs: Pairs)
    requires Indices(active, bucket)
    ensures forall x: Node, y: Node :: (x, y) in pairs <==> FoundIn(active, bucket, x, y)
  {
    pairs := {};
    for a := 0 to |bucket|
      invariant forall x: Node, y: Node :: (x, y) in pairs <==> FoundBefore(active, bucket, a, x, y)
    {
      var more := CompareAfter(active, bucket, a);
      pairs := pairs + more;
    }
    forall x: Node, y: Node
      ensures FoundBefore(active, bucket, |bucket|, x, y) <==> FoundIn(active, bucket, x, y)
    {
    }
  }

  ghost predicate FoundBefore(active: seq<Named>, bucket: seq<Node>, n: nat, x: Node, y: Node)
    requires Indices(active, bucket) && n <= |bucket|
  {
    exists a, b :: 0 <= a < n && a < b < |bucket| && bucket[a] == x && bucket[b] == y && Related(active[x].base, active[y].base)
  }

  // Linked by name, in either order.
  ghost predicate SameName(active: seq<Named>, members: seq<Node>, x: Node, y: Node) {
    x in members && y in members && x != y && x < |active| && y < |active| && Related(active[x].base, active[y].base)
  }

  method SearchBuckets(active: seq<Named>, members: seq<Node>, buckets: map<string, seq<Node>>) returns (pairs: Pairs)
    requires Indices(active, members) && forall t :: t in buckets ==> buckets[t] == Bucket(active, members, t)
    ensures forall x: Node, y: Node :: (x, y) in pairs <==> FoundAmong(active, members, buckets.Keys, x, y)
  {
    pairs := {};
    var todo, done := buckets.Keys, {};
    while todo != {}
      invariant todo + done == buckets.Keys
      invariant forall x: Node, y: Node :: (x, y) in pairs <==> FoundAmong(active, members, done, x, y)
      decreases |todo|
    {
      var t :| t in todo;
      BucketIff(active, members, t);
      var more := CompareBucket(active, buckets[t]);
      forall x: Node, y: Node
        ensures FoundAmong(active, members, done + {t}, x, y) <==> FoundAmong(active, members, done, x, y) || (x, y) in more
      {
        AmongAdded(active, members, done, t, x, y);
      }
      pairs, todo, done := pairs + more, todo - {t}, done + {t};
    }
    assert done == buckets.Keys;
  }

  // Main result on the bucketed search: it finds exactly the related pairs of an all-pairs scan.
  method RelatedPairs(active: seq<Named>, members: seq<Node>) returns (pairs: Pairs)
    requires Indices(active, members) && Distinct(members) && Normal(active)
    ensures forall x: Node, y: Node :: (x, y) in pairs || (y, x) in pairs <==> SameName(active, members, x, y)
  {
    var buckets := Buckets(active, members);
    pairs := SearchBuckets(active, members, buckets);
    forall x: Node, y: Node
      ensures (x, y) in pairs || (y, x) in pairs <==> SameName(active, members, x, y)
    {
      PairIsFound(active, members, buckets, x, y);
    }
  }

  lemma AmongAdded(active: seq<Named>, members: seq<Node>, tokens: set<string>, t: string, x: Node, y: Node)
    requires Indices(active, members) && Indices(active, Bucket(active, members, t))
    ensures FoundAmong(active, members, tokens + {t}, x, y) <==>
      FoundAmong(active, members, tokens, x, y) || FoundIn(active, Bucket(active, members, t), x, y)
  {
    if FoundIn(active, Bucket(active, members, t), x, y) {
      assert FoundInBucket(active, members, t, x, y);
    }
    if u :| u in tokens && FoundInBucket(active, members, u, x, y) {
      assert u in tokens + {t};
    }
  }

  ghost predicate FoundInBucket(active: seq<Named>, members: seq<Node>, t: string, x: Node, y: Node)
    requires Indices(active, members)
  {
    Indices(active, Bucket(active, members, t)) && FoundIn(active, Bucket(active, members, t), x, y)
  }

  ghost predicate FoundAmong(active: seq<Named>, members: seq<Node>, tokens: set<string>, x: Node, y: Node)
    requires Indices(active, members)
  {
    exists t :: t in tokens && FoundInBucket(active, members, t, x, y)
  }

  lemma PairIsFound(active: seq<Named>, members: seq<Node>, buckets: map<string, seq<Node>>, x: Node, y: Node)
    requires Indices(active, members) && Distinct(members) && Normal(active)
    requires forall t :: t in buckets <==> Bucket(active, members, t) != []
    ensures SameName(active, members, x, y) <==>
      FoundAmong(active, members, buckets.Keys, x, y) || FoundAmong(active, members, buckets.Keys, y, x)
  {
    if SameName(active, members, x, y) {
      var t := FirstToken(active[x].base);
      RelatedShareToken(active[x].base, active[y].base);
      BucketIff(active, members, t);
      var bucket := Bucket(active, members, t);
      var a :| 0 <= a < |bucket| && bucket[a] == x;
      var b :| 0 <= b < |bucket| && bucket[b] == y;
      RelatedIsSymmetric(active[x].base, active[y].base);
      assert FoundInBucket(active, members, t, x, y) || FoundInBucket(active, members, t, y, x);
    }
    if t :| t in buckets && (FoundInBucket(active, members, t, x, y) || FoundInBucket(active, members, t, y, x)) {
      BucketIff(active, members, t);
      BucketDistinct(active, members, t);
      RelatedIsSymmetric(active[x].base, active[y].base);
    }
  }

  lemma {:induction false} BucketDistinct(active: seq<Named>, members: seq<Node>, token: string)
    requires Indices(active, members) && Distinct(members)
    ensures Distinct(Bucket(active, members, token))
  {
    if members != [] {
      var front, last := members[..|members| - 1], members[|members| - 1];
      BucketDistinct(active, front, token);
      BucketIff(active, front, token);
      assert last !in front;
    }
  }
}
