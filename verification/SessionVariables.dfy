/** Session variables kept equal between a client session and a backend connection. */
module SessionVariables {
  import opened Common

  datatype Value = Text(text: string) | Int(n: int) | Other

  const SQL_MODE := "sql_mode"
  const SQL_SAFE_UPDATES := "sql_safe_updates"
  const TIME_ZONE := "time_zone"

  function Allowed(): set<string> {
    {SQL_MODE, SQL_SAFE_UPDATES, TIME_ZONE}
  }

  predicate IsQuote(c: char) {
    c == '\'' || c == '`' || c == '\"'
  }

  function TrimLeft(s: string): string {
    if s != "" && IsQuote(s[0]) then TrimLeft(s[1..]) else s
  }

  function TrimRight(s: string): string {
    if s != "" && IsQuote(s[|s| - 1]) then TrimRight(s[..|s| - 1]) else s
  }

  // Lower case of one character, as far as it is ASCII: besides the Latin capitals, the
  // dotted capital I and the Kelvin sign have ASCII lower case. Other characters have none
  // and are left alone, so that no supported name contains them.
  function LowerChar(c: char): char {
    if 'A' <= c <= 'Z' then (c as int + 32) as char
    else if c == '\U{0130}' then 'i'
    else if c == '\U{212A}' then 'k'
    else c
  }

  function Lower(s: string): string {
    seq(|s|, i requires 0 <= i < |s| => LowerChar(s[i]))
  }

  function FormatName(name: string): string {
    Lower(TrimRight(TrimLeft(name)))
  }

  lemma AllowedIsFormatted(name: string)
    requires name in Allowed()
    ensures FormatName(name) == name
  {
  }

  lemma AllowedNames()
    ensures Allowed() == {"sql_mode", "sql_safe_updates", "time_zone"}
  {
  }

  lemma LowerMeans(k: nat)
    requires k < 26
    ensures LowerChar("ABCDEFGHIJKLMNOPQRSTUVWXYZ"[k]) == "abcdefghijklmnopqrstuvwxyz"[k]
  {
  }

  /** Quotes of any of the three kinds around a name do not count. */
  lemma QuotesDoNotCount(name: string, q: char)
    requires q == '\'' || q == '`' || q == '\"'
    ensures FormatName([q] + name + [q]) == FormatName(name)
  {
    assert ([q] + name + [q])[1..] == name + [q];
    TrimmedLeft(name, q);
  }

  lemma {:induction false} TrimmedLeft(name: string, q: char)
    requires IsQuote(q)
    ensures TrimRight(TrimLeft(name + [q])) == TrimRight(TrimLeft(name))
  {
    if name == "" {
      assert name + [q] == [q] && [q][1..] == "";
    } else if IsQuote(name[0]) {
      assert (name + [q])[1..] == name[1..] + [q];
      TrimmedLeft(name[1..], q);
    } else {
      assert (name + [q])[..|name|] == name;
    }
  }

  /** A name may be quoted and in any case, the dotted capital I included. */
  lemma DottedCapitalIsAccepted()
    ensures FormatName("T\U{0130}ME_ZONE") == TIME_ZONE && FormatName("`Time_Zone`") == TIME_ZONE
  {
    assert TrimLeft("`Time_Zone`") == "Time_Zone`";
    assert TrimRight("Time_Zone`") == "Time_Zone";
    assert Lower("Time_Zone") == TIME_ZONE;
    assert Lower("T\U{0130}ME_ZONE") == TIME_ZONE;
  }

  // Which values each variable accepts.
  type Verifier = (string, Value) -> bool

  class Variable {
    const name: string
    var value: Value

    constructor (name: string, value: Value)
      ensures this.name == name && this.value == value
    {
      this.name, this.value := name, value;
    }

    method Set(verify: Verifier, value: Value) returns (ok: bool)
      modifies this
      ensures ok <==> verify(name, value)
      ensures this.value == if ok then value else old(this.value)
    {
      if !verify(name, value) {
        return false;
      }
      this.value := value;
      return true;
    }
  }

  type Contents = map<string, Value>

  // Contents `c` with one name made as it is in `d`.
  function Aligned(c: Contents, d: Contents, name: string): Contents {
    if name in d then c[name := d[name]] else c - {name}
  }

  function UnusedAfter(u: Contents, c: Contents, d: Contents, name: string): Contents {
    if name in c && name !in d then u[name := c[name]] else u
  }

  ghost predicate SameAt(c: Contents, d: Contents, n: string) {
    (n in c <==> n in d) && (n in c ==> c[n] == d[n])
  }

  // Half way: the names still to do are as they were, the others as in `d`.
  ghost predicate HalfWay(c: Contents, was: Contents, d: Contents, todo: set<string>) {
    && c.Keys <= Allowed() && todo <= Allowed()
    && forall n :: n in Allowed() ==> SameAt(c, if n in todo then was else d, n)
  }

  // The variables dropped on the names handled so far.
  function DroppedOn(was: Contents, d: Contents, todo: set<string>): Contents {
    was - d.Keys - todo
  }

  ghost predicate ChangedOn(was: Contents, d: Contents, todo: set<string>) {
    exists n :: n in Allowed() - todo && !SameAt(was, d, n)
  }

  lemma AlignOne(c: Contents, was: Contents, d: Contents, todo: set<string>, name: string)
    requires name in todo && HalfWay(c, was, d, todo)
    ensures HalfWay(Aligned(c, d, name), was, d, todo - {name})
    ensures Aligned(c, d, name) != c <==> !SameAt(was, d, name)
  {
    assert SameAt(c, was, name);
    forall n | n in Allowed() ensures SameAt(Aligned(c, d, name), if n in todo - {name} then was else d, n) {
      assert SameAt(c, if n in todo then was else d, n);
    }
  }

  lemma DropOne(c: Contents, u: Contents, was: Contents, d: Contents, todo: set<string>, name: string)
    requires name in todo && HalfWay(c, was, d, todo)
    ensures UnusedAfter(u + DroppedOn(was, d, todo), c, d, name) == u + DroppedOn(was, d, todo - {name})
  {
    assert SameAt(c, was, name);
  }

  lemma ChangeOne(was: Contents, d: Contents, todo: set<string>, name: string)
    requires name in todo && todo <= Allowed()
    ensures ChangedOn(was, d, todo - {name}) <==> ChangedOn(was, d, todo) || !SameAt(was, d, name)
  {
  }

  lemma AllAligned(c: Contents, was: Contents, d: Contents)
    requires HalfWay(c, was, d, {}) && was.Keys <= Allowed() && d.Keys <= Allowed()
    ensures c == d && DroppedOn(was, d, {}) == was - d.Keys
    ensures ChangedOn(was, d, {}) <==> was != d
  {
    forall n | n in Allowed() ensures SameAt(c, d, n) {
      assert SameAt(c, if n in {} then was else d, n);
    }
    if !ChangedOn(was, d, {}) {
      forall n | n in Allowed() ensures SameAt(was, d, n) {}
    }
  }

  lemma AlignedSame(c: Contents, d: Contents, name: string)
    ensures Aligned(c, d, name) == c <==> SameAt(c, d, name)
  {
    assert name in Aligned(c, d, name) <==> name in d;
  }

  // Against an empty side everything is copied or everything is dropped.
  lemma EmptySides(u: Contents, was: Contents, d: Contents)
    ensures was.Keys == {} ==> u + (was - d.Keys) == u
    ensures d.Keys == {} ==> was - d.Keys == was
  {
  }

  lemma CopyOne(d: Contents, todo: set<string>, name: string)
    requires name in d && name in todo
    ensures (d - todo)[name := d[name]] == d - (todo - {name})
  {
  }

  lemma MoveOne(u: Contents, was: Contents, todo: set<string>, name: string)
    requires name in was && name in todo
    ensures (u + (was - todo))[name := was[name]] == u + (was - (todo - {name}))
    ensures was - (was.Keys - todo) - {name} == was - (was.Keys - (todo - {name}))
  {
  }

  ghost predicate NoneShared(a: map<string, Variable>, b: map<string, Variable>) {
    forall m, n :: m in a && n in b ==> a[m] != b[n]
  }

  lemma MoveKeepsApart(a: map<string, Variable>, b: map<string, Variable>, name: string)
    requires NoneShared(a, b) && name in a && forall n :: n in a ==> a[n].name == n
    ensures NoneShared(a - {name}, b[name := a[name]])
  {
  }

  lemma MoveKeepsOthersApart(
    a: map<string, Variable>, b: map<string, Variable>, other: map<string, Variable>, name: string)
    requires NoneShared(a, other) && NoneShared(b, other) && name in a
    ensures NoneShared(a - {name}, other) && NoneShared(b[name := a[name]], other)
  {
  }

  class SessionVariables {
    const verify: Verifier
    var variables: map<string, Variable>
    var unused: map<string, Variable>

    constructor (verify: Verifier)
      ensures Valid() && this.verify == verify && Contents() == map[] && Unused() == map[]
    {
      this.verify, variables, unused := verify, map[], map[];
    }

    ghost function Contents(): Contents
      reads this, variables.Values
    {
      map n | n in variables :: variables[n].value
    }

    ghost function Unused(): Contents
      reads this, unused.Values
    {
      map n | n in unused :: unused[n].value
    }

    /** Every variable stands under its own allowed name with an accepted value, and no
        object is both in use and unused. */
    ghost predicate Valid()
      reads this, variables.Values
    {
      && variables.Keys <= Allowed()
      && (forall n :: n in variables ==> variables[n].name == n && verify(n, variables[n].value))
      && (forall n :: n in unused ==> unused[n].name == n)
      && NoneShared(variables, unused)
    }

    // Two sessions that share no object.
    ghost predicate Apart(dst: SessionVariables)
      reads this, dst
    {
      && this != dst && verify == dst.verify
      && NoneShared(variables, dst.variables) && NoneShared(variables, dst.unused)
      && NoneShared(unused, dst.variables) && NoneShared(unused, dst.unused)
    }

    ghost predicate Ready(dst: SessionVariables)
      reads this, variables.Values, dst, dst.variables.Values
    {
      Valid() && dst.Valid() && Apart(dst)
    }

    method Set(key: string, value: Value) returns (ok: bool)
      requires Valid()
      modifies this, variables.Values
      ensures Valid() && unused == old(unused) && Unused() == old(Unused())
      ensures ok <==> FormatName(key) in Allowed() && verify(FormatName(key), value)
      ensures Contents() == if ok then old(Contents())[FormatName(key) := value] else old(Contents())
      ensures forall n :: n in old(variables) ==> n in variables && variables[n] == old(variables[n])
      ensures forall n :: n in variables && n !in old(variables) ==> n == FormatName(key) && fresh(variables[n])
    {
      var name := FormatName(key);
      if name !in Allowed() {
        return false;
      }
      if name in variables {
        ok := Change(name, value);
        return;
      }
      if !verify(name, value) {
        return false;
      }
      Add(name, value);
      return true;
    }

    method Change(name: string, value: Value) returns (ok: bool)
      requires Valid() && name in variables
      modifies variables[name]
      ensures Valid() && Unused() == old(Unused()) && (ok <==> verify(name, value))
      ensures Contents() == if ok then old(Contents())[name := value] else old(Contents())
    {
      ok := variables[name].Set(verify, value);
    }

    method Add(name: string, value: Value)
      requires Valid() && name !in variables && name in Allowed() && verify(name, value)
      modifies this`variables
      ensures Valid() && Unused() == old(Unused())
      ensures variables.Keys == old(variables.Keys) + {name} && fresh(variables[name])
      ensures forall n :: n in old(variables) ==> variables[n] == old(variables[n])
      ensures Contents() == old(Contents())[name := value]
    {
      var v := new Variable(name, value);
      variables := variables[name := v];
    }

    // Move one variable to the unused ones.
    method Drop(name: string, ghost dst: SessionVariables)
      requires Ready(dst) && name in variables
      modifies this
      ensures Ready(dst) && dst.Contents() == old(dst.Contents())
      ensures variables == old(variables) - {name}
      ensures Contents() == old(Contents()) - {name}
      ensures Unused() == old(Unused())[name := old(Contents())[name]]
    {
      MoveKeepsApart(variables, unused, name);
      MoveKeepsOthersApart(variables, unused, dst.variables, name);
      MoveKeepsOthersApart(variables, unused, dst.unused, name);
      unused := unused[name := variables[name]];
      variables := variables - {name};
    }

    // Take one value over from `dst`.
    method Take(name: string, dst: SessionVariables) returns (ok: bool)
      requires Ready(dst) && name in dst.variables
      modifies this, variables.Values
      ensures ok && Ready(dst) && dst.Contents() == old(dst.Contents())
      ensures Contents() == old(Contents())[name := dst.Contents()[name]]
      ensures Unused() == old(Unused())
      ensures forall n :: n in variables ==> variables[n] in old(variables.Values) || fresh(variables[n])
    {
      AllowedIsFormatted(name);
      ok := Set(dst.variables[name].name, dst.variables[name].value);
    }

    // Make one name equal to what it is in `dst`.
    method SyncOne(dst: SessionVariables, name: string) returns (changed: bool)
      requires Ready(dst) && name in Allowed()
      modifies this, variables.Values
      ensures Ready(dst) && dst.Contents() == old(dst.Contents())
      ensures Contents() == Aligned(old(Contents()), dst.Contents(), name)
      ensures Unused() == UnusedAfter(old(Unused()), old(Contents()), dst.Contents(), name)
      ensures changed <==> Contents() != old(Contents())
      ensures forall n :: n in variables ==> variables[n] in old(variables.Values) || fresh(variables[n])
    {
      changed := false;
      AlignedSame(Contents(), dst.Contents(), name);
      if name in variables && name in dst.variables {
        if variables[name].value != dst.variables[name].value {
          changed := true;
          var _ := Take(name, dst);
        }
      } else if name in variables {
        changed := true;
        Drop(name, dst);
      } else if name in dst.variables {
        changed := true;
        var _ := Take(name, dst);
      }
    }

    method CopyAll(dst: SessionVariables) returns (ok: bool)
      requires Ready(dst) && variables == map[]
      modifies this
      ensures ok && Ready(dst) && dst.Contents() == old(dst.Contents())
      ensures Contents() == dst.Contents() && Unused() == old(Unused())
    {
      ghost var d := dst.Contents();
      var todo := dst.variables.Keys;
      while todo != {}
        invariant todo <= d.Keys && Ready(dst) && dst.Contents() == d
        invariant Contents() == d - todo && Unused() == old(Unused())
        invariant forall n :: n in variables ==> fresh(variables[n])
      {
        var n :| n in todo;
        CopyOne(d, todo, n);
        ok := Take(n, dst);
        if !ok {
          return;
        }
        todo := todo - {n};
      }
      return true;
    }

    method DropAll(ghost dst: SessionVariables)
      requires Ready(dst)
      modifies this
      ensures Ready(dst) && dst.Contents() == old(dst.Contents()) && variables == map[]
      ensures Unused() == old(Unused()) + old(Contents())
    {
      ghost var was, u := Contents(), Unused();
      var todo := variables.Keys;
      while todo != {}
        invariant todo <= was.Keys && Ready(dst) && dst.Contents() == old(dst.Contents())
        invariant variables.Keys == todo && Contents() == was - (was.Keys - todo) && Unused() == u + (was - todo)
      {
        var n :| n in todo;
        MoveOne(u, was, todo, n);
        Drop(n, dst);
        todo := todo - {n};
      }
    }

    method SyncAll(dst: SessionVariables) returns (changed: bool)
      requires Ready(dst)
      modifies this, variables.Values
      ensures Ready(dst) && Contents() == dst.Contents() == old(dst.Contents())
      ensures Unused() == old(Unused()) + (old(Contents()) - dst.Contents().Keys)
      ensures changed <==> old(Contents()) != dst.Contents()
    {
      ghost var was, u, d := Contents(), Unused(), dst.Contents();
      changed := false;
      var todo := Allowed();
      while todo != {}
        invariant Ready(dst) && dst.Contents() == d
        invariant HalfWay(Contents(), was, d, todo) && Unused() == u + DroppedOn(was, d, todo)
        invariant changed <==> ChangedOn(was, d, todo)
        invariant forall n :: n in variables ==> variables[n] in old(variables.Values) || fresh(variables[n])
      {
        var name :| name in todo;
        AlignOne(Contents(), was, d, todo, name);
        DropOne(Contents(), u, was, d, todo, name);
        ChangeOne(was, d, todo, name);
        var different := SyncOne(dst, name);
        changed := changed || different;
        todo := todo - {name};
      }
      AllAligned(Contents(), was, d);
    }

    method SetEqualsWith(dst: SessionVariables) returns (changed: bool, ok: bool)
      requires Ready(dst)
      modifies this, variables.Values
      ensures ok && Ready(dst) && Contents() == dst.Contents() == old(dst.Contents())
      ensures Unused() == old(Unused()) + (old(Contents()) - dst.Contents().Keys)
      ensures changed <==> old(Contents()) != dst.Contents()
    {
      ghost var was, d := Contents(), dst.Contents();
      EmptySides(Unused(), was, d);
      if |variables| == 0 && |dst.variables| != 0 {
        assert variables.Keys == {} && dst.variables.Keys != {};
        assert was.Keys == {} && d.Keys != {};
        ok := CopyAll(dst);
        changed := true;
      } else if |variables| != 0 && |dst.variables| == 0 {
        assert variables.Keys != {} && dst.variables.Keys == {};
        assert was.Keys != {} && d.Keys == {};
        DropAll(dst);
        changed, ok := true, true;
      } else {
        changed := SyncAll(dst);
        ok := true;
      }
    }

    method GetUnusedAndClear() returns (r: map<string, Variable>)
      requires Valid()
      modifies this`unused
      ensures Valid() && r == old(unused) && unused == map[]
    {
      r := unused;
      unused := map[];
    }
  }
}
