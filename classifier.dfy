/** `get_proxy_type`: classify the network of an IP address from the
    organisation that an IP-information service reports for it. */
module Classifier {
  import opened Wrappers
  import opened Json

  datatype NetworkType = Datacenter | Residential | Unknown

  /** What the lookup `requests.get('https://ipinfo.io/{ip}/json').json()`
      produced: an exception (a network error, or a body that is not JSON), or
      the parsed body. The HTTP status is not looked at. */
  datatype Lookup = LookupFailed | LookupBody(body: Value)

  // ---------------------------------------------------------------------
  // Python's `needle in haystack` for strings
  // ---------------------------------------------------------------------

  /** `p` occurs in `s` starting at index `i`. */
  predicate OccursAt(p: string, s: string, i: int) {
    0 <= i <= |s| - |p| && s[i..i + |p|] == p
  }

  /** `p` occurs in `s` at some position. */
  ghost predicate Occurs(p: string, s: string) {
    exists i :: OccursAt(p, s, i)
  }

  /** The substring search that `p in s` performs on two `str` values. */
  function ContainsSub(s: string, p: string): bool
    decreases |s|
  {
    if |s| < |p| then false
    else s[..|p|] == p || ContainsSub(s[1..], p)
  }

  /** An occurrence in the tail is an occurrence one place further on. */
  lemma OccursShift(p: string, s: string, i: int)
    requires s != [] && OccursAt(p, s[1..], i)
    ensures OccursAt(p, s, i + 1)
  {
    assert s[1..][i..i + |p|] == s[i + 1..i + 1 + |p|];
  }

  /** An occurrence past the first place is an occurrence in the tail. */
  lemma OccursUnshift(p: string, s: string, i: int)
    requires 0 < i && OccursAt(p, s, i)
    ensures OccursAt(p, s[1..], i - 1)
  {
    assert s[1..][i - 1..i - 1 + |p|] == s[i..i + |p|];
  }

  lemma {:induction false} ContainsSubCorrect(s: string, p: string)
    ensures ContainsSub(s, p) <==> Occurs(p, s)
    decreases |s|
  {
    if |s| >= |p| {
      if s[..|p|] == p {
        assert OccursAt(p, s, 0);
      } else {
        ContainsSubCorrect(s[1..], p);
        if Occurs(p, s) {
          var i :| OccursAt(p, s, i);
          assert i != 0;
          OccursUnshift(p, s, i);
        }
        if Occurs(p, s[1..]) {
          var i :| OccursAt(p, s[1..], i);
          OccursShift(p, s, i);
        }
      }
    }
  }


  /** Python's `needle in container` where the container is a JSON value:
      a substring test on a string, element equality on a list, key
      membership on a dict; on null, a boolean or a number the operator
      raises `TypeError` (None). */
  function In(needle: string, container: Value): (r: Option<bool>)
    ensures r.None? <==> !(container.JString? || container.JArray? || container.JObject?)
    ensures container.JString? ==> (r == Some(true) <==> Occurs(needle, container.s))
    ensures container.JArray? ==>
      (r == Some(true) <==> exists k :: 0 <= k < |container.items| && container.items[k] == JString(needle))
    ensures container.JObject? ==> (r == Some(true) <==> needle in container.fields)
  {
    match container
    case JString(s) =>
      ContainsSubCorrect(s, needle);
      Some(ContainsSub(s, needle))
    case JArray(items) => Some(JString(needle) in items)
    case JObject(fields) => Some(needle in fields)
    case _ => None
  }

  /** `data.get("org", "")`: the organisation entry, "" when absent. */
  function Org(fields: map<string, Value>): (org: Value)
    ensures "org" in fields ==> org == fields["org"]
    ensures "org" !in fields ==> org == JString("")
  {
    if "org" in fields then fields["org"] else JString("")
  }

  // ---------------------------------------------------------------------
  // Reference description of the outcome
  // ---------------------------------------------------------------------

  /** Some step of `get_proxy_type` raised: the request or the JSON decoding
      failed, the body has no `.get` (it is not an object), or the `in` test
      raised on the organisation value. */
  ghost predicate LookupRaises(reply: Lookup) {
    reply.LookupFailed?
    || !reply.body.JObject?
    || ("org" in reply.body.fields
        && (reply.body.fields["org"].JNull? || reply.body.fields["org"].JBool?
            || reply.body.fields["org"].JNumber?))
  }

  /** The organisation value mentions "AS" in the sense of Python's `in`. */
  ghost predicate MentionsAS(org: Value) {
    match org
    case JString(s) => Occurs("AS", s)
    case JArray(items) => exists k :: 0 <= k < |items| && items[k] == JString("AS")
    case JObject(fields) => "AS" in fields
    case _ => false
  }

  /** `"AS" in org` answers True exactly when the organisation mentions "AS",
      and raises exactly on the scalars that are not strings. */
  lemma InMentionsAS(org: Value)
    ensures In("AS", org) == Some(true) <==> MentionsAS(org)
    ensures In("AS", org).None? <==> org.JNull? || org.JBool? || org.JNumber?
  {
    if org.JString? {
      ContainsSubCorrect(org.s, "AS");
    }
  }

  /** `get_proxy_type(ip)`, the lookup being the oracle `lookup`. Every
      exception is caught and gives Unknown; otherwise "AS" in the
      organisation means Datacenter and anything else Residential. */
  function GetProxyType(ip: Value, lookup: Value -> Lookup): (t: NetworkType)
    ensures t == Unknown <==> LookupRaises(lookup(ip))
    ensures t == Datacenter <==>
              !LookupRaises(lookup(ip)) && MentionsAS(Org(lookup(ip).body.fields))
  {
    match lookup(ip)
    case LookupFailed => Unknown
    case LookupBody(body) =>
      match body
      case JObject(fields) =>
        var org := Org(fields);
        InMentionsAS(org);
        (match In("AS", org)
         case None => Unknown
         case Some(found) => if found then Datacenter else Residential)
      case _ => Unknown
  }

  /** With a string organisation the rule is exactly the "AS" substring test. */
  lemma OrgStringRule(ip: Value, lookup: Value -> Lookup, fields: map<string, Value>, org: string)
    requires lookup(ip) == LookupBody(JObject(fields))
    requires "org" in fields && fields["org"] == JString(org)
    ensures GetProxyType(ip, lookup) == (if Occurs("AS", org) then Datacenter else Residential)
  {
  }

  /** A missing "org" entry defaults to "", which never contains "AS". */
  lemma MissingOrgIsResidential(ip: Value, lookup: Value -> Lookup, fields: map<string, Value>)
    requires lookup(ip) == LookupBody(JObject(fields)) && "org" !in fields
    ensures GetProxyType(ip, lookup) == Residential
  {
  }
}
