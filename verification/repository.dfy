/**
 * The check of the `repository` input: `repository.split('/')` must give a
 * non-empty owner and a non-empty name; further parts are ignored.
 */
module Repository {
  import opened Wrappers
  import opened JsStrings

  datatype Repo = Repo(owner: string, name: string)

  /** "Invalid repository '<repository>'. Expected format {owner}/{repo}." */
  datatype InputError = InvalidRepository(repository: string)

  /** The repository check at the start of `run`. */
  function ParseRepository(repository: string): (r: Result<Repo, InputError>)
    ensures r.Failure? ==> r.error == InvalidRepository(repository)
    ensures r.Success? ==>
              var owner, name := r.value.owner, r.value.name;
              var end := |owner| + 1 + |name|;
              && owner != "" && name != "" && '/' !in owner && '/' !in name
              && end <= |repository| && repository[..end] == owner + "/" + name
              && (end == |repository| || repository[end] == '/')
  {
    var parts := Split(repository, '/');
    if parts[0] == "" || |parts| < 2 || parts[1] == "" then Failure(InvalidRepository(repository))
    else
      SplitHead(parts);
      Success(Repo(parts[0], parts[1]))
  }

  /** A join of at least two parts begins with the first two and a separator or the end follows. */
  lemma SplitHead(parts: seq<string>)
    requires |parts| >= 2
    ensures var end := |parts[0]| + 1 + |parts[1]|;
            var s := Join(parts, '/');
            && end <= |s| && s[..end] == parts[0] + "/" + parts[1]
            && (end == |s| || s[end] == '/')
  {
    var s := Join(parts, '/');
    var tail := Join(parts[1..], '/');
    assert s == parts[0] + "/" + tail;
    if |parts| == 2 {
      assert tail == parts[1];
    } else {
      assert tail == parts[1] + "/" + Join(parts[2..], '/');
    }
  }

  /**
   * `owner/name`, optionally followed by more `/`-separated parts, is
   * accepted as exactly that owner and name.
   */
  lemma ParseOwnerName(owner: string, name: string, rest: string)
    requires owner != "" && name != "" && '/' !in owner && '/' !in name
    requires rest == "" || rest[0] == '/'
    ensures ParseRepository(owner + "/" + name + rest) == Success(Repo(owner, name))
  {
    var s := owner + "/" + name + rest;
    if rest == "" {
      assert s == Join([owner, name], '/');
      SplitJoin([owner, name], '/');
    } else {
      var more := Split(rest[1..], '/');
      var parts := [owner, name] + more;
      assert parts[1..] == [name] + more && parts[2..] == more;
      assert Join(parts, '/') == owner + "/" + (name + "/" + Join(more, '/'));
      assert rest == "/" + rest[1..];
      assert s == Join(parts, '/');
      SplitJoin(parts, '/');
    }
  }

  /** A string without `/` is rejected. */
  lemma NoSlashRejected(repository: string)
    requires '/' !in repository
    ensures ParseRepository(repository).Failure?
  {
  }
}
