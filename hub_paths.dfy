/** Paths in the hosted hub storage: `s3://snark-hub/...` or
    `s3://snark-hub-dev/...`, whose last two components name the owner and
    the dataset. */
module HubPaths {
  import opened Outcomes
  import opened Strings

  datatype HubName = HubName(username: string, dataset: string)

  const DevPrefix: string := "s3://snark-hub-dev/"
  const ProdPrefix: string := "s3://snark-hub/"

  predicate IsHubPath(path: string) {
    StartsWith(path, DevPrefix) || StartsWith(path, ProdPrefix)
  }

  /** Drops "s3://", splits the rest on "/", rejects fewer than four pieces,
      and reads the username and dataset name off the end. Paths outside the
      hub storage carry no name. */
  function ParseHubPath(path: string): Result<Option<HubName>> {
    if !IsHubPath(path) then Ok(None)
    else
      var spl := Split(path[5..], '/');
      if |spl| < 4 then Err(InvalidPath)
      else Ok(Some(HubName(spl[|spl| - 2], spl[|spl| - 1])))
  }

  /** The parsed names are the last two components of the path: neither holds
      a "/", and the path ends with "/<username>/<dataset>". */
  lemma {:induction false} ParsedNamesAreLastComponents(path: string)
    requires ParseHubPath(path).Ok? && ParseHubPath(path).value.Some?
    ensures var h := ParseHubPath(path).value.value;
      '/' !in h.username && '/' !in h.dataset &&
      EndsWith(path, "/" + h.username + "/" + h.dataset)
  {
    var h := ParseHubPath(path).value.value;
    var rest := path[5..];
    var spl := Split(rest, '/');
    var n := |spl|;
    SplitPiecesFree(rest, '/');
    assert spl == spl[..n - 2] + [h.username, h.dataset];
    JoinSplit(rest, '/');
    JoinEndsWith(spl[..n - 2], h.username, h.dataset);
    assert path == path[..5] + rest;
    EndsWithAfter(path[..5], rest, "/" + h.username + "/" + h.dataset);
  }

  /** Joining pieces that end in `u` and `d` gives a string ending in "/u/d". */
  lemma JoinEndsWith(init: seq<string>, u: string, d: string)
    requires |init| >= 1
    ensures EndsWith(Join(init + [u, d], '/'), "/" + u + "/" + d)
  {
    JoinAppend(init, [u, d], '/');
    JoinTwo(u, d, '/');
    SlashSuffix(Join(init, '/'), Join([u, d], '/'), u, d);
  }

  /** `j/u/d` ends with "/u/d". */
  lemma SlashSuffix(j: string, m: string, u: string, d: string)
    requires m == u + ['/'] + d
    ensures EndsWith(j + ['/'] + m, "/" + u + "/" + d)
  {
    assert "/" + u + "/" + d == ['/'] + m;
    assert j + ['/'] + m == j + (['/'] + m);
  }

  lemma JoinTwo(a: string, b: string, c: char)
    ensures Join([a, b], c) == a + [c] + b
  {
    assert [a, b][1..] == [b];
  }

  /** A suffix of a string is a suffix of anything that string is appended to. */
  lemma EndsWithAfter(p: string, r: string, t: string)
    requires EndsWith(r, t)
    ensures EndsWith(p + r, t)
  {
    assert (p + r)[|p + r| - |t|..] == r[|r| - |t|..];
  }

  /** The bucket named by each hub prefix; it holds no "/". */
  lemma PrefixBucket(prefix: string, bucket: string)
    requires prefix == "s3://" + bucket + "/"
    requires bucket == "snark-hub-dev" || bucket == "snark-hub"
    ensures prefix[5..] == bucket + "/" && '/' !in bucket
  {
    assert |"s3://"| == 5;
    assert forall i :: 0 <= i < |bucket| ==> bucket[i] != '/';
  }

  lemma JoinThree(a: string, b: string, c: string)
    ensures Join([a, b, c], '/') == a + "/" + b + "/" + c
  {
    assert [a, b, c][1..] == [b, c];
    JoinTwo(b, c, '/');
    assert a + ['/'] + (b + ['/'] + c) == a + "/" + b + "/" + c;
  }

  /** The pieces of a path after its "s3://": those of a prefix naming a
      "/"-free bucket, followed by three "/"-free components, are the bucket
      and the three. */
  lemma {:induction false} HubPieces(prefix: string, bucket: string, middle: string, username: string, dataset: string)
    requires |prefix| >= 5 && prefix[5..] == bucket + "/" && '/' !in bucket
    requires '/' !in middle && '/' !in username && '/' !in dataset
    ensures Split((prefix + (middle + "/" + username + "/" + dataset))[5..], '/') == [bucket, middle, username, dataset]
  {
    var rest := middle + "/" + username + "/" + dataset;
    assert (prefix + rest)[5..] == bucket + ['/'] + rest;
    SplitAround(bucket, rest, '/');
    SplitNoSeparator(bucket, '/');
    JoinThree(middle, username, dataset);
    SplitJoin([middle, username, dataset], '/');
  }

  /** A hub path with at least one component between the bucket and the owner
      parses back into the owner and dataset it was built from. */
  lemma {:induction false} ParseHubPathRoundTrip(dev: bool, middle: string, username: string, dataset: string)
    requires '/' !in middle && '/' !in username && '/' !in dataset
    ensures var prefix := if dev then DevPrefix else ProdPrefix;
      ParseHubPath(prefix + (middle + "/" + username + "/" + dataset)) == Ok(Some(HubName(username, dataset)))
  {
    var prefix := if dev then DevPrefix else ProdPrefix;
    var bucket := if dev then "snark-hub-dev" else "snark-hub";
    var rest := middle + "/" + username + "/" + dataset;
    assert (prefix + rest)[..|prefix|] == prefix;
    PrefixBucket(prefix, bucket);
    HubPieces(prefix, bucket, middle, username, dataset);
  }

  /** A hub path is rejected exactly when it has fewer than four components
      after "s3://". */
  lemma InvalidIffShort(path: string)
    requires IsHubPath(path)
    ensures ParseHubPath(path) == Err(InvalidPath) <==> |Split(path[5..], '/')| < 4
  {
  }

  /** Every other path carries no hub name and is never rejected. */
  lemma NonHubPathsCarryNoName(path: string)
    requires !IsHubPath(path)
    ensures ParseHubPath(path) == Ok(None)
  {
  }
}
