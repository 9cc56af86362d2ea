/** What can be told from a printed CEF message: everything that its extension carries. */
module CefFields {
  import opened Cef
  import opened CefReader
  import Decimal

  /** The value of the first pair with the given key, blank if there is none. */
  function Lookup(pairs: seq<Pair>, key: string): string {
    if pairs == [] then "" else if pairs[0].key == key then pairs[0].value else Lookup(pairs[1..], key)
  }

  lemma {:induction false} LookupNonBlank(pairs: seq<Pair>, i: nat)
    requires i < |pairs| && forall a, b :: 0 <= a < b < |pairs| ==> pairs[a].key != pairs[b].key
    ensures Lookup(NonBlank(pairs), pairs[i].key) == pairs[i].value
    decreases |pairs|
  {
    assert ([pairs[0]] + NonBlank(pairs[1..]))[1..] == NonBlank(pairs[1..]);
    assert [] + NonBlank(pairs[1..]) == NonBlank(pairs[1..]);
    if i > 0 {
      LookupNonBlank(pairs[1..], i - 1);
      assert pairs[0].key != pairs[i].key;
    } else if pairs[0].value == "" {
      LookupAbsent(pairs[1..], pairs[0].key);
    }
  }

  lemma {:induction false} LookupAbsent(pairs: seq<Pair>, key: string)
    requires forall i :: 0 <= i < |pairs| ==> pairs[i].key != key
    ensures Lookup(NonBlank(pairs), key) == ""
    decreases |pairs|
  {
    if pairs != [] {
      LookupAbsent(pairs[1..], key);
      assert ([pairs[0]] + NonBlank(pairs[1..]))[1..] == NonBlank(pairs[1..]);
      assert [] + NonBlank(pairs[1..]) == NonBlank(pairs[1..]);
    }
  }

  lemma SameExtension(e: Entry, f: Entry)
    requires NonBlank(Extension(e)) == NonBlank(Extension(f))
    ensures forall i :: 0 <= i < 14 ==> Extension(e)[i].value == Extension(f)[i].value
  {
    KeysOfTheExtension(e, f);
    forall i | 0 <= i < 14 ensures Extension(e)[i].value == Extension(f)[i].value {
      LookupNonBlank(Extension(e), i);
      LookupNonBlank(Extension(f), i);
    }
  }

  lemma PrintedValue(e: Entry, i: nat)
    requires i < 14
    ensures Lookup(NonBlank(Extension(e)), Extension(e)[i].key) == Extension(e)[i].value
  {
    KeysOfTheExtension(e, e);
    LookupNonBlank(Extension(e), i);
  }

  /** What a reader of the message finds under each of the repository's own keys. */
  lemma FieldsOfTheEntry(e: Entry)
    ensures var found := NonBlank(Extension(e));
            && Lookup(found, "act") == e.action && Lookup(found, "requestMethod") == e.action
            && Lookup(found, "suser") == e.actor && Lookup(found, "suid") == e.actorSub
            && Lookup(found, "src") == e.remoteIp && Lookup(found, "request") == e.resource
            && Lookup(found, "externalId") == e.id
  {
    PrintedValue(e, 0);
    PrintedValue(e, 1);
    PrintedValue(e, 2);
    PrintedValue(e, 3);
    PrintedValue(e, 4);
    PrintedValue(e, 5);
    PrintedValue(e, 6);
  }

  lemma CustomFieldsOfTheEntry(e: Entry)
    ensures var found := NonBlank(Extension(e));
            && Lookup(found, "cs1Label") == "request_id" && Lookup(found, "cs1") == e.requestId
            && Lookup(found, "cs2Label") == "tenant_id" && Lookup(found, "cs2") == e.tenantId
            && Lookup(found, "cs3Label") == "status" && Lookup(found, "cs3") == Decimal.Text(e.status)
            && Lookup(found, "outcome") == if e.status >= 400 then "failure" else "success"
  {
    PrintedValue(e, 7);
    PrintedValue(e, 8);
    PrintedValue(e, 9);
    PrintedValue(e, 10);
    PrintedValue(e, 11);
    PrintedValue(e, 12);
    PrintedValue(e, 13);
  }

  lemma HeaderOfTheEntry(e: Entry, version: string)
    ensures var h := Header(e, version);
            && |h| == 7 && h[0] == "CEF:0" && h[1] == "mqconnector" && h[2] == "mqconnector"
            && h[3] == (if version == "" then "dev" else version) && h[4] == e.action
            && h[5] == (if e.resource == "" then "audit" else e.resource)
            && h[6] == if e.status >= 500 then "7" else if e.status >= 400 then "5" else "3"
  {
    assert Decimal.Digits(0) == "";
    assert Decimal.Digits(7) == ['7'] && Decimal.Digits(5) == ['5'] && Decimal.Digits(3) == ['3'];
  }

  /** The message that an independent reader gets says of every field of the entry what it should. */
  lemma MessageSaysWhatTheEntrySays(e: Entry, version: string)
    ensures var message := Parse(CefText(e, version));
            message.Some? &&
            var found, h := message.value.extension, message.value.header;
            && Lookup(found, "act") == e.action && Lookup(found, "requestMethod") == e.action
            && Lookup(found, "suser") == e.actor && Lookup(found, "suid") == e.actorSub
            && Lookup(found, "src") == e.remoteIp && Lookup(found, "request") == e.resource
            && Lookup(found, "externalId") == e.id
            && Lookup(found, "cs1Label") == "request_id" && Lookup(found, "cs1") == e.requestId
            && Lookup(found, "cs2Label") == "tenant_id" && Lookup(found, "cs2") == e.tenantId
            && Lookup(found, "cs3Label") == "status" && Lookup(found, "cs3") == Decimal.Text(e.status)
            && Lookup(found, "outcome") == (if e.status >= 400 then "failure" else "success")
            && |h| == 7 && h[0] == "CEF:0" && h[1] == "mqconnector" && h[2] == "mqconnector"
            && h[3] == (if version == "" then "dev" else version) && h[4] == e.action
            && h[5] == (if e.resource == "" then "audit" else e.resource)
            && h[6] == if e.status >= 500 then "7" else if e.status >= 400 then "5" else "3"
  {
    RoundTrip(e, version);
    FieldsOfTheEntry(e);
    CustomFieldsOfTheEntry(e);
    HeaderOfTheEntry(e, version);
  }

  /** Two entries printed alike agree in everything the extension carries. */
  lemma PrinterIsInjective(e: Entry, version: string, f: Entry, other: string)
    requires CefText(e, version) == CefText(f, other)
    ensures e.action == f.action && e.actor == f.actor && e.actorSub == f.actorSub && e.remoteIp == f.remoteIp
    ensures e.resource == f.resource && e.id == f.id && e.requestId == f.requestId && e.tenantId == f.tenantId
    ensures e.status == f.status && OrElse(version, "dev") == OrElse(other, "dev")
  {
    RoundTrip(e, version);
    RoundTrip(f, other);
    SameExtension(e, f);
    var a, b := Extension(e), Extension(f);
    assert a[0].value == b[0].value && a[1].value == b[1].value && a[2].value == b[2].value && a[3].value == b[3].value;
    assert a[4].value == b[4].value && a[6].value == b[6].value && a[8].value == b[8].value;
    assert a[10].value == b[10].value && a[12].value == b[12].value;
    Decimal.TextInjective(e.status, f.status);
    assert Header(e, version)[3] == Header(f, other)[3];
  }

  lemma KeysOfTheExtension(e: Entry, f: Entry)
    ensures |Extension(e)| == |Extension(f)| == 14
    ensures forall i :: 0 <= i < 14 ==> Extension(e)[i].key == Extension(f)[i].key
    ensures forall i, j :: 0 <= i < j < 14 ==> Extension(e)[i].key != Extension(e)[j].key
  {
  }
}
