/** utils/commonEnum.js: the protocol's command strings and password-response codes. */
module CommonEnum {
  import opened Options

  /** A property of one of the constant objects: a string constant or one of its methods. */
  datatype Member = Text(text: string) | Method(name: string)

  /** An object literal, as its own properties in declaration order. */
  type Entries = seq<(string, Member)>

  const PasswordPrefix: string := "pswd="
  const PasswordSuffix: string := [0 as char, '\n']
  const DischargeOpen: string := "fdopen\n"
  const DischargeClose: string := "fdclose\n"
  const ChargeOpen: string := "cdopen\n"
  const ChargeClose: string := "cdclose\n"
  const RequestData: string := "re"

  const Success: string := "pd1"
  const Failure: string := "pd0"

  /** The `Command` object. */
  const Command: Entries := [
    ("PASSWORD_PREFIX", Text(PasswordPrefix)),
    ("PASSWORD_SUFFIX", Text(PasswordSuffix)),
    ("DISCHARGE_OPEN", Text(DischargeOpen)),
    ("DISCHARGE_CLOSE", Text(DischargeClose)),
    ("CHARGE_OPEN", Text(ChargeOpen)),
    ("CHARGE_CLOSE", Text(ChargeClose)),
    ("REQUEST_DATA", Text(RequestData)),
    ("getValue", Method("getValue")),
    ("getAllCommands", Method("getAllCommands"))
  ]

  /** The `PasswordResponse` object. */
  const PasswordResponse: Entries := [
    ("SUCCESS", Text(Success)),
    ("FAILURE", Text(Failure)),
    ("getValue", Method("getValue")),
    ("isSuccess", Method("isSuccess")),
    ("isFailure", Method("isFailure")),
    ("getAllResponses", Method("getAllResponses"))
  ]

  /** Property access `obj[key]` on an own property; `None` is `undefined`. */
  function Lookup(obj: Entries, key: string): (r: Option<Member>)
    ensures r.None? <==> forall i :: 0 <= i < |obj| ==> obj[i].0 != key
    ensures r.Some? ==> exists i :: 0 <= i < |obj| && obj[i] == (key, r.value)
  {
    if obj == [] then None
    else if obj[0].0 == key then Some(obj[0].1)
    else
      var r := Lookup(obj[1..], key);
      assert r.Some? ==> obj[1..][IndexOfEntry(obj[1..], key, r.value)] == (key, r.value);
      r
  }

  /** Helper for the existential above: where the looked-up entry sits. */
  function IndexOfEntry(obj: Entries, key: string, m: Member): (i: nat)
    requires exists i :: 0 <= i < |obj| && obj[i] == (key, m)
    ensures i < |obj| && obj[i] == (key, m)
  {
    if obj[0] == (key, m) then 0
    else
      assert exists i :: 0 <= i < |obj[1..]| && obj[1..][i] == (key, m) by {
        var j :| 0 <= j < |obj| && obj[j] == (key, m);
        assert obj[1..][j - 1] == obj[j];
      }
      1 + IndexOfEntry(obj[1..], key, m)
  }

  /** `getValue(key)`: `this[key] || ''` (a method property is truthy and is returned as is). */
  function GetValue(obj: Entries, key: string): (r: Member)
    ensures Lookup(obj, key).None? ==> r == Text("")
    ensures Lookup(obj, key).Some? ==> r == Lookup(obj, key).value
  {
    match Lookup(obj, key)
    case None => Text("")
    case Some(m) => m
  }

  /** `getAllCommands` / `getAllResponses`: the keys whose value is a string, in order. */
  function StringKeys(obj: Entries): (keys: seq<string>)
    ensures |keys| <= |obj|
    ensures forall k :: k in keys <==> exists e :: e in obj && e.0 == k && e.1.Text?
  {
    if obj == [] then []
    else
      var rest := StringKeys(obj[1..]);
      assert forall e :: e in obj <==> e == obj[0] || e in obj[1..];
      if obj[0].1.Text? then [obj[0].0] + rest else rest
  }

  /** The names of all properties, in order. */
  function Names(obj: Entries): (names: seq<string>)
    ensures |names| == |obj|
  {
    seq(|obj|, i requires 0 <= i < |obj| => obj[i].0)
  }

  /** Filtering distributes over concatenation. */
  lemma {:induction false} StringKeysAppend(a: Entries, b: Entries)
    ensures StringKeys(a + b) == StringKeys(a) + StringKeys(b)
  {
    if a != [] {
      assert (a + b)[0] == a[0] && (a + b)[1..] == a[1..] + b;
      StringKeysAppend(a[1..], b);
    } else {
      assert a + b == b;
    }
  }

  /** Only string constants: every name is kept. */
  lemma {:induction false} StringKeysAllTexts(obj: Entries)
    requires forall i :: 0 <= i < |obj| ==> obj[i].1.Text?
    ensures StringKeys(obj) == Names(obj)
  {
    if obj != [] {
      StringKeysAllTexts(obj[1..]);
      assert Names(obj) == [obj[0].0] + Names(obj[1..]);
    }
  }

  /** Only methods: no name is kept. */
  lemma {:induction false} StringKeysNoTexts(obj: Entries)
    requires forall i :: 0 <= i < |obj| ==> obj[i].1.Method?
    ensures StringKeys(obj) == []
  {
    if obj != [] {
      StringKeysNoTexts(obj[1..]);
    }
  }

  /** `isSuccess(response)` */
  predicate IsSuccess(response: string) {
    response == Success
  }

  /** `isFailure(response)` */
  predicate IsFailure(response: string) {
    response == Failure
  }

  /** The frame `verifyPassword` sends: prefix, the password, then NUL and newline. */
  function PasswordFrame(password: string): (frame: string)
    ensures |frame| == |password| + 7
  {
    PasswordPrefix + password + PasswordSuffix
  }

  /** A password frame is recognisable and gives its password back. */
  lemma PasswordFrameParts(password: string)
    ensures PasswordFrame(password)[..5] == "pswd="
    ensures PasswordFrame(password)[5..5 + |password|] == password
    ensures PasswordFrame(password)[5 + |password|..] == [0 as char, '\n']
  {
    var f := PasswordFrame(password);
    assert f == "pswd=" + (password + [0 as char, '\n']);
    assert f[5..] == password + [0 as char, '\n'];
    assert f[5..][..|password|] == password;
  }

  /** No response is both a success and a failure. */
  lemma SuccessFailureExclusive(response: string)
    ensures !(IsSuccess(response) && IsFailure(response))
  {
    assert Success[2] != Failure[2];
  }

  /** No two properties of the object share a name. */
  predicate KeysDistinct(obj: Entries) {
    forall i, j :: 0 <= i < j < |obj| ==> obj[i].0 != obj[j].0
  }

  /** In an object with distinct keys, each property is found under its own name. */
  lemma {:induction false} LookupOwn(obj: Entries, i: nat)
    requires KeysDistinct(obj) && i < |obj|
    ensures Lookup(obj, obj[i].0) == Some(obj[i].1)
  {
    if i > 0 {
      assert obj[0].0 != obj[i].0;
      assert obj[1..][i - 1] == obj[i];
      LookupOwn(obj[1..], i - 1);
    }
  }

  lemma CommandKeysDistinct()
    ensures KeysDistinct(Command)
  {
    forall i, j | 0 <= i < j < |Command| ensures Command[i].0 != Command[j].0 {
    }
  }

  /** Every string constant of `Command` comes back from `getValue`. */
  lemma CommandGetValueKnown(i: nat)
    requires i < |Command| && Command[i].1.Text?
    ensures GetValue(Command, Command[i].0) == Command[i].1
  {
    CommandKeysDistinct();
    LookupOwn(Command, i);
  }

  /** A key that is not a property of `Command` gives the empty string. */
  lemma CommandGetValueUnknown(key: string)
    requires forall i :: 0 <= i < |Command| ==> Command[i].0 != key
    ensures GetValue(Command, key) == Text("")
  {
  }

  /** `getAllCommands` lists exactly the seven command names, leaving out the two methods. */
  lemma AllCommands()
    ensures StringKeys(Command) == ["PASSWORD_PREFIX", "PASSWORD_SUFFIX", "DISCHARGE_OPEN",
      "DISCHARGE_CLOSE", "CHARGE_OPEN", "CHARGE_CLOSE", "REQUEST_DATA"]
  {
    assert Command == Command[..7] + Command[7..];
    StringKeysAppend(Command[..7], Command[7..]);
    StringKeysAllTexts(Command[..7]);
    StringKeysNoTexts(Command[7..]);
  }

  /** `getAllResponses` lists exactly `SUCCESS` and `FAILURE`. */
  lemma AllResponses()
    ensures StringKeys(PasswordResponse) == ["SUCCESS", "FAILURE"]
  {
    assert PasswordResponse == PasswordResponse[..2] + PasswordResponse[2..];
    StringKeysAppend(PasswordResponse[..2], PasswordResponse[2..]);
    StringKeysAllTexts(PasswordResponse[..2]);
    StringKeysNoTexts(PasswordResponse[2..]);
  }
}
