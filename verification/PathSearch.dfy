/**
 Finding a program along PATH.  PATH is taken apart
 as section 8.3 of the POSIX.1-2017 Base Definitions says: directories separated
 by colons, an empty one standing for the current directory.
 */
module PathSearch {

  const DEFAULT_PATH := "/bin:/usr/bin"

  datatype Option<T> = None | Some(value: T)

  // ------------------------------------------------------------------- splitting

  function Split(s: string): (parts: seq<string>)
    ensures 0 < |parts|
    ensures forall i :: 0 <= i < |parts| ==> ':' !in parts[i]
  {
    if s == [] then [[]]
    else
      var rest := Split(s[1..]);
      if s[0] == ':' then [[]] + rest else [[s[0]] + rest[0]] + rest[1..]
  }

  function Unsplit(parts: seq<string>): string
    requires 0 < |parts|
  {
    if |parts| == 1 then parts[0] else parts[0] + ":" + Unsplit(parts[1..])
  }

  /** Splitting loses nothing: the components joined by colons are the value again. */
  lemma {:induction false} UnsplitSplit(s: string)
    ensures Unsplit(Split(s)) == s
  {
    if s != [] {
      UnsplitSplit(s[1..]);
      var rest := Split(s[1..]);
      if s[0] == ':' {
        assert Split(s)[1..] == rest;
      } else {
        assert Split(s)[1..] == rest[1..];
      }
    }
  }

  /** Splitting finds every component: it undoes joining components without colons. */
  lemma {:induction false} SplitUnsplit(parts: seq<string>)
    requires 0 < |parts| && forall i :: 0 <= i < |parts| ==> ':' !in parts[i]
    ensures Split(Unsplit(parts)) == parts
  {
    if |parts| == 1 {
      SplitWhole(parts[0]);
    } else {
      SplitUnsplit(parts[1..]);
      var s := Unsplit(parts);
      SplitAt(s, |parts[0]|);
      assert s[..|parts[0]|] == parts[0] && s[|parts[0]| + 1..] == Unsplit(parts[1..]);
    }
  }

  lemma {:induction false} SplitWhole(s: string)
    requires ':' !in s
    ensures Split(s) == [s]
  {
    if s != [] {
      assert s[0] in s && forall c :: c in s[1..] ==> c in s;
      SplitWhole(s[1..]);
      assert [s[0]] + s[1..] == s;
    }
  }

  lemma {:induction false} SplitAt(s: string, i: nat)
    requires i < |s| && s[i] == ':' && ':' !in s[..i]
    ensures Split(s) == [s[..i]] + Split(s[i + 1..])
  {
    if i > 0 {
      assert s[..i] == [s[0]] + s[1..][..i - 1];
      assert s[0] in s[..i] && forall c :: c in s[1..][..i - 1] ==> c in s[..i];
      assert s[1..][i..] == s[i + 1..];
      SplitAt(s[1..], i - 1);
      var rest := Split(s[1..]);
      assert rest[0] == s[1..][..i - 1] && rest[1..] == Split(s[i + 1..]);
    }
  }

  // ----------------------------------------------------------------- environment

  predicate Names(entry: string, name: string) {
    |name| < |entry| && entry[..|name|] == name && entry[|name|] == '='
  }

  /** `value` is that of the first entry that begins with the name and an equals sign; None if there is no such entry. */
  ghost predicate ValueOf(environment: seq<string>, name: string, value: Option<string>) {
    match value
    case None => forall i :: 0 <= i < |environment| ==> !Names(environment[i], name)
    case Some(v) =>
      exists i :: 0 <= i < |environment| && environment[i] == name + "=" + v
                  && forall j :: 0 <= j < i ==> !Names(environment[j], name)
  }

  /** Looks a name up in the given environment, or with `getenv` when there is none. */
  method EnvironmentValue(given: Option<seq<string>>, getenv: string -> Option<string>, name: string)
    returns (value: Option<string>)
    ensures given.None? ==> value == getenv(name)
    ensures given.Some? ==> ValueOf(given.value, name, value) && value == Lookup(given.value, name)
  {
    if given.None? {
      return getenv(name);
    }
    var environment := given.value;
    for i := 0 to |environment|
      invariant forall j :: 0 <= j < i ==> !Names(environment[j], name)
      invariant Lookup(environment, name) == Lookup(environment[i..], name)
    {
      assert environment[i..][0] == environment[i] && environment[i..][1..] == environment[i + 1..];
      if Names(environment[i], name) {
        value := Some(environment[i][|name| + 1..]);
        assert environment[i] == name + "=" + value.value;
        return;
      }
    }
    value := None;
  }

  function Lookup(environment: seq<string>, name: string): Option<string> {
    if environment == [] then None
    else if Names(environment[0], name) then Some(environment[0][|name| + 1..])
    else Lookup(environment[1..], name)
  }

  function SearchPath(environment: seq<string>): string {
    match Lookup(environment, "PATH")
    case None => DEFAULT_PATH
    case Some(value) => if value == [] then DEFAULT_PATH else value
  }

  // ------------------------------------------------------------------ candidates

  function Candidate(directory: string, name: string): string {
    if directory == [] then name else directory + "/" + name
  }

  /** A candidate is the directory, one slash and the name, or the bare name for the current directory. */
  lemma CandidateMeans(directory: string, name: string)
    ensures directory == [] ==> Candidate(directory, name) == name
    ensures directory != [] ==>
      var c, n := Candidate(directory, name), |directory|;
      |c| == n + 1 + |name| && c[..n] == directory && c[n] == '/' && c[n + 1..] == name
  {
  }

  /** The path searched is the value of PATH, unless that is missing or empty. */
  lemma SearchPathMeans(environment: seq<string>, value: Option<string>)
    requires ValueOf(environment, "PATH", value)
    ensures SearchPath(environment) == if value.Some? && value.value != [] then value.value else "/bin:/usr/bin"
  {
    LookupIs(environment, "PATH", value);
  }

  lemma {:induction false} LookupIs(environment: seq<string>, name: string, value: Option<string>)
    requires ValueOf(environment, name, value)
    ensures Lookup(environment, name) == value
  {
    if environment != [] {
      if value.Some? {
        var i :| 0 <= i < |environment| && environment[i] == name + "=" + value.value
                 && forall j :: 0 <= j < i ==> !Names(environment[j], name);
        if i == 0 {
          assert environment[0][|name| + 1..] == value.value;
        } else {
          assert environment[1..][i - 1] == environment[i];
          LookupIs(environment[1..], name, value);
        }
      } else {
        LookupIs(environment[1..], name, value);
      }
    }
  }

  /** The default is the two system directories. */
  lemma DefaultDirectories()
    ensures Split(DEFAULT_PATH) == ["/bin", "/usr/bin"]
  {
    var parts: seq<string> := ["/bin", "/usr/bin"];
    assert parts[1..] == ["/usr/bin"];
    assert Unsplit(parts) == DEFAULT_PATH;
    SplitUnsplit(parts);
  }

  function Candidates(parts: seq<string>, name: string): (r: seq<string>)
    ensures |r| == |parts| && forall i :: 0 <= i < |r| ==> r[i] == Candidate(parts[i], name)
  {
    seq(|parts|, i requires 0 <= i < |parts| => Candidate(parts[i], name))
  }

  /** Fills a buffer of exactly the candidate's size, terminator included. */
  method FormCandidate(value: string, start: nat, length: nat, name: string) returns (buffer: array<char>)
    requires start + length <= |value|
    ensures fresh(buffer) && buffer.Length == |Candidate(value[start..start + length], name)| + 1
    ensures buffer[..] == Candidate(value[start..start + length], name) + ['\0']
  {
    var separator := if length > 0 then 1 else 0;
    buffer := new char[length + separator + |name| + 1](_ => '\0');
    forall i | 0 <= i < length {
      buffer[i] := value[start + i];
    }
    if separator == 1 {
      buffer[length] := '/';
    }
    forall i | 0 <= i < |name| {
      buffer[length + separator + i] := name[i];
    }
    buffer[length + separator + |name|] := '\0';
  }

  // ---------------------------------------------------------------------- search

  /**
   What lies outside: the k-th allocation, whether the kernel runs a program, the
   program that the C library's own search for a name runs, and the inherited environment.
   */
  datatype System = System(
    granted: nat -> bool,
    accepts: string -> bool,
    execvp: string -> Option<string>,
    getenv: string -> Option<string>)

  datatype Search = Search(tried: seq<string>, ran: Option<string>)

  /** Tries candidates from number `k` on until the kernel accepts one. */
  function Attempt(candidates: seq<string>, sys: System, k: nat): Search {
    if candidates == [] then Search([], None)
    else if !sys.granted(k) then Attempt(candidates[1..], sys, k + 1)
    else if sys.accepts(candidates[0]) then Search([candidates[0]], Some(candidates[0]))
    else
      var rest := Attempt(candidates[1..], sys, k + 1);
      rest.(tried := [candidates[0]] + rest.tried)
  }

  /** When allocations succeed, candidates are tried in order up to the first that the kernel accepts. */
  lemma {:induction false} FirstAcceptedRuns(candidates: seq<string>, sys: System, k: nat)
    requires forall i: nat :: sys.granted(i)
    ensures var r := Attempt(candidates, sys, k);
            && r.tried <= candidates
            && (r.ran.None? ==> r.tried == candidates && forall i :: 0 <= i < |candidates| ==> !sys.accepts(candidates[i]))
            && (r.ran.Some? ==>
                  && 0 < |r.tried| && r.ran.value == r.tried[|r.tried| - 1] && sys.accepts(r.ran.value)
                  && forall i :: 0 <= i < |r.tried| - 1 ==> !sys.accepts(candidates[i]))
  {
    if candidates != [] && !sys.accepts(candidates[0]) {
      FirstAcceptedRuns(candidates[1..], sys, k + 1);
      assert candidates == [candidates[0]] + candidates[1..];
    }
  }

  /** The candidates for which memory was granted, `k` being the number of the first allocation. */
  function Formed(candidates: seq<string>, sys: System, k: nat): seq<string> {
    if candidates == [] then []
    else (if sys.granted(k) then [candidates[0]] else []) + Formed(candidates[1..], sys, k + 1)
  }

  /** The same surroundings with memory for everybody. */
  function Generous(sys: System): (r: System)
    ensures forall i: nat :: r.granted(i)
  {
    sys.(granted := (i: nat) => true)
  }

  /** A candidate without memory is passed over: the search is that of `FirstAcceptedRuns` among the others. */
  lemma {:induction false} PassedOver(candidates: seq<string>, sys: System, k: nat, j: nat)
    ensures Attempt(candidates, sys, k) == Attempt(Formed(candidates, sys, k), Generous(sys), j)
  {
    if candidates != [] {
      var rest := Formed(candidates[1..], sys, k + 1);
      if sys.granted(k) {
        PassedOver(candidates[1..], sys, k + 1, j + 1);
        assert ([candidates[0]] + rest)[1..] == rest;
      } else {
        PassedOver(candidates[1..], sys, k + 1, j);
        assert [] + rest == rest;
      }
    }
  }

  /** The position of the next colon at or after `start`, or the end. */
  method FindColon(s: string, start: nat) returns (end: nat)
    requires start <= |s|
    ensures start <= end <= |s| && ':' !in s[start..end] && (end < |s| ==> s[end] == ':')
  {
    end := start;
    while end < |s| && s[end] != ':'
      invariant start <= end <= |s| && ':' !in s[start..end]
    {
      end := end + 1;
    }
  }

  /** With `tried` behind it and `candidates` before it, the search ends in `goal`. */
  ghost predicate Leads(tried: seq<string>, candidates: seq<string>, sys: System, k: nat, goal: Search) {
    var rest := Attempt(candidates, sys, k);
    goal == rest.(tried := tried + rest.tried)
  }

  lemma LeadsOn(tried: seq<string>, c: seq<string>, sys: System, k: nat, goal: Search)
    requires Leads(tried, c, sys, k, goal)
    ensures c == [] ==> goal == Search(tried, None)
    ensures c != [] && !sys.granted(k) ==> Leads(tried, c[1..], sys, k + 1, goal)
    ensures c != [] && sys.granted(k) ==>
      if sys.accepts(c[0]) then goal == Search(tried + [c[0]], Some(c[0])) else Leads(tried + [c[0]], c[1..], sys, k + 1, goal)
  {
  }

  /** The loop over the components of the search path. */
  method SearchAlong(value: string, name: string, sys: System) returns (r: Search)
    ensures r == Attempt(Candidates(Split(value), name), sys, 0)
  {
    hide Split, Candidates, Candidate, Attempt, Leads;
    var tried: seq<string> := [];
    var start, k := 0, 0;
    ghost var goal := Attempt(Candidates(Split(value), name), sys, 0);
    LeadsAtFirst(value, name, sys);
    while true
      invariant 0 <= start <= |value|
      invariant Leads(tried, Candidates(Split(value[start..]), name), sys, k, goal)
      decreases |value| - start
    {
      var end := FindColon(value, start);
      ComponentAt(value, start, end, name);
      LeadsOn(tried, Candidates(Split(value[start..]), name), sys, k, goal);
      if sys.granted(k) {
        var buffer := FormCandidate(value, start, end - start, name);
        var candidate := buffer[..buffer.Length - 1];
        tried := tried + [candidate];
        if sys.accepts(candidate) {
          return Search(tried, Some(candidate));
        }
      }
      k := k + 1;
      if end == |value| {
        LeadsOn(tried, [], sys, k, goal);
        return Search(tried, None);
      }
      start := end + 1;
    }
  }

  lemma LeadsAtFirst(value: string, name: string, sys: System)
    ensures var c := Candidates(Split(value[0..]), name);
            Leads([], c, sys, 0, Attempt(Candidates(Split(value), name), sys, 0))
  {
    assert value[0..] == value;
  }

  lemma FirstOf(directory: string, name: string, parts: seq<string>, rest: seq<string>)
    requires parts == [directory] + rest
    ensures Candidates(parts, name)[0] == Candidate(directory, name)
    ensures Candidates(parts, name)[1..] == Candidates(rest, name)
  {
  }

  lemma ComponentAt(value: string, start: nat, end: nat, name: string)
    requires start <= end <= |value| && ':' !in value[start..end] && (end < |value| ==> value[end] == ':')
    ensures var c := Candidates(Split(value[start..]), name);
            && c != [] && c[0] == Candidate(value[start..end], name)
            && c[1..] == if end == |value| then [] else Candidates(Split(value[end + 1..]), name)
  {
    hide Split, Candidate, Candidates;
    var s := value[start..];
    if end == |value| {
      assert s == value[start..end];
      SplitWhole(s);
      FirstOf(s, name, Split(s), []);
    } else {
      assert s[..end - start] == value[start..end] && s[end - start + 1..] == value[end + 1..];
      SplitAt(s, end - start);
      FirstOf(value[start..end], name, Split(s), Split(value[end + 1..]));
    }
  }

  /** `x_process_exec_environment`: a name with a slash is run as it is; without an environment the C library searches. */
  method ExecEnvironment(name: string, environment: Option<seq<string>>, sys: System) returns (r: Search)
    ensures '/' in name ==> r.tried == [name] && (r.ran == if sys.accepts(name) then Some(name) else None)
    ensures '/' !in name && environment.None? ==> r == Search([], sys.execvp(name))
    ensures '/' !in name && environment.Some? ==> r == Attempt(Candidates(Split(SearchPath(environment.value)), name), sys, 0)
  {
    if environment.None? && '/' !in name {
      return Search([], sys.execvp(name));
    }
    if '/' in name {
      return Search([name], if sys.accepts(name) then Some(name) else None);
    }
    var found := EnvironmentValue(environment, sys.getenv, "PATH");
    var value := if found.None? || found.value == [] then DEFAULT_PATH else found.value;
    r := SearchAlong(value, name, sys);
  }
}
