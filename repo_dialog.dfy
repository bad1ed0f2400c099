/** The "add repository" dialog: one text field, validated before it accepts. */
module RepoDialog {
  import opened Wrappers
  import opened PyBuiltins

  datatype RepoError = EmptyName | MissingSlash

  /**
   * `validate_and_accept` then `get_repo_name`: the stripped text, accepted
   * when it is non-empty and contains a `/`; emptiness is checked first.
   */
  function ValidateRepoName(text: string): (r: Result<string, RepoError>)
    ensures r.Ok? <==> Strip(text) != "" && '/' in Strip(text)
    ensures r.Ok? ==> r.value == Strip(text)
    ensures r == Err(EmptyName) <==> Strip(text) == ""
    ensures r == Err(MissingSlash) <==> Strip(text) != "" && '/' !in Strip(text)
  {
    var name := Strip(text);
    if name == "" then Err(EmptyName)
    else if '/' !in name then Err(MissingSlash)
    else Ok(name)
  }

  /** An accepted name carries no surrounding whitespace, and accepting it again changes nothing. */
  lemma AcceptedNameIsStripped(text: string)
    requires ValidateRepoName(text).Ok?
    ensures var name := ValidateRepoName(text).value;
      && !IsSpace(name[0]) && !IsSpace(name[|name| - 1])
      && ValidateRepoName(name) == Ok(name)
  {
    StripIdempotent(text);
  }

  /** A blank field is rejected as empty, whatever whitespace it holds. */
  lemma BlankNameRejected(text: string)
    requires AllSpace(text)
    ensures ValidateRepoName(text) == Err(EmptyName)
  {
    StripEmptyIffAllSpace(text);
  }

  /** The check is only "non-empty and has a slash": a bare `/` passes. */
  lemma SlashAloneAccepted(t: string)
    requires t == "/"
    ensures ValidateRepoName(t) == Ok(t)
  {
    Trimmed(t);
  }

  /** More than one slash passes too. */
  lemma NestedNameAccepted(t: string)
    requires t == "a/b/c"
    ensures ValidateRepoName(t) == Ok(t)
  {
    assert t[1] == '/';
    Trimmed(t);
  }

  /** A name without a slash is rejected. */
  lemma NameWithoutSlashRejected(t: string)
    requires t == "repo"
    ensures ValidateRepoName(t) == Err(MissingSlash)
  {
    assert forall i :: 0 <= i < |t| ==> t[i] != '/';
    Trimmed(t);
  }

  /** Surrounding blanks are dropped before the check: ` a/b ` is accepted as `a/b`. */
  lemma PaddedNameAccepted(t: string)
    requires t == " a/b "
    ensures ValidateRepoName(t) == Ok("a/b")
  {
    var name := t[1..4];
    assert name == "a/b" && name[1] == '/';
    PaddedStrip(t);
    Trimmed(name);
  }

  /** `strip` drops one blank on each side of ` a/b `. */
  lemma PaddedStrip(t: string)
    requires t == " a/b "
    ensures Strip(t) == t[1..4]
  {
    assert SpaceRun(t, 1) == 1;
    assert TrimLeft(t) == t[1..];
    var left := t[1..];
    assert SpaceRunBack(left, 3) == 3;
    assert TrimRight(left) == left[..3];
  }

  /** The outcome for a text that strip leaves alone, decided by whether it has a slash. */
  lemma Trimmed(s: string)
    requires s != [] && !IsSpace(s[0]) && !IsSpace(s[|s| - 1])
    ensures ValidateRepoName(s) == if '/' in s then Ok(s) else Err(MissingSlash)
  {
    assert TrimLeft(s) == s;
    assert TrimRight(s) == s;
  }
}
