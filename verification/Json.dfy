/** JSON documents as value trees, as rapidjson presents them after parsing. */
module Json {
  import opened Wrappers
  import opened Uint32
  import opened CStrings

  datatype Json =
    | Null
    | Bool(b: bool)
    | Number(n: int)
    | Fraction
    | String(s: string)
    | Array(items: seq<Json>)
    | Object(members: seq<(string, Json)>)
  {
    predicate IsInt() {
      Number? && -0x8000_0000 <= n < 0x8000_0000
    }

    predicate HasMember(name: string) {
      Object? && Find(members, name).Some?
    }

    function Member(name: string): Json
      requires HasMember(name)
    {
      Find(members, name).value
    }

    predicate HasInt(name: string) {
      HasMember(name) && Member(name).IsInt()
    }

    function IntMember(name: string): int32
      requires HasInt(name)
    {
      Member(name).n
    }

    predicate HasString(name: string) {
      HasMember(name) && Member(name).String?
    }

    /** `GetString()` assigned to a `std::string`. */
    function StringMember(name: string): string
      requires HasString(name)
    {
      CStr(Member(name).s)
    }

    predicate HasObject(name: string) {
      HasMember(name) && Member(name).Object?
    }

    predicate HasArray(name: string) {
      HasMember(name) && Member(name).Array?
    }
  }

  /** The first member of that name. */
  function Find(members: seq<(string, Json)>, name: string): Option<Json> {
    if members == [] then None
    else if members[0].0 == name then Some(members[0].1)
    else Find(members[1..], name)
  }

  /** The texts of an array of strings. */
  function Texts(items: seq<Json>): (r: seq<string>)
    requires forall i :: 0 <= i < |items| ==> items[i].String?
    ensures |r| == |items|
    ensures forall i :: 0 <= i < |items| ==> r[i] == CStr(items[i].s)
  {
    seq(|items|, i requires 0 <= i < |items| => CStr(items[i].s))
  }

  lemma {:induction false} FindHere(members: seq<(string, Json)>, k: nat)
    requires k < |members|
    requires forall i :: 0 <= i < k ==> members[i].0 != members[k].0
    ensures Find(members, members[k].0) == Some(members[k].1)
  {
    if k > 0 {
      assert members[1..][k - 1] == members[k];
      FindHere(members[1..], k - 1);
    }
  }
}
