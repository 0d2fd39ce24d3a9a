/**
 The context a sealed protobuf field is bound to (crypto/field_context.go): a list of segments written as
 `<length>:<bytes>` one after the other. The whole list is the additional authenticated data, the first four
 segments are the key-derivation domain.
 */
module FieldContext {
  import opened Text

  const VERSION := "power-manage-field-seal:v1"
  const AGENT_TO_CONTROL := "agent-to-control"
  const CONTROL_TO_AGENT := "control-to-agent"

  /** One segment on the wire. */
  function Frame(segment: string): string {
    Decimal(|segment|) + [':'] + segment
  }

  function Encode(segments: seq<string>): string {
    if segments == [] then [] else Encode(segments[..|segments| - 1]) + Frame(segments[|segments| - 1])
  }

  function Segments(direction: string, message: string, field: string, bindings: seq<string>): seq<string> {
    [VERSION, direction, message, field] + bindings
  }

  predicate Acceptable(direction: string, message: string, field: string, bindings: seq<string>) {
    && (direction == AGENT_TO_CONTROL || direction == CONTROL_TO_AGENT)
    && message != "" && field != "" && "" !in bindings
  }

  /** FieldSealContext: the authenticated data and the derivation domain. */
  method FieldSealContext(direction: string, message: string, field: string, bindings: seq<string>)
    returns (r: Option<(string, string)>)
    ensures r.Some? <==> Acceptable(direction, message, field, bindings)
    ensures r.Some? ==> r.value.0 == Encode(Segments(direction, message, field, bindings))
    ensures r.Some? ==> r.value.1 == Encode([VERSION, direction, message, field])
    ensures r.Some? ==> Decode(r.value.0) == Some([VERSION, direction, message, field] + bindings)
    ensures r.Some? ==> Decode(r.value.1) == Some([VERSION, direction, message, field])
    ensures r.Some? ==> r.value.1 <= r.value.0
  {
    hide Encode, Decode;
    if direction != AGENT_TO_CONTROL && direction != CONTROL_TO_AGENT {
      return None;
    }
    var segments := [VERSION, direction, message, field];
    segments := segments + bindings;
    for i := 0 to |segments|
      invariant "" !in segments[..i]
    {
      if segments[i] == "" {
        EmptySegment(direction, message, field, bindings, i);
        return None;
      }
      assert segments[..i + 1] == segments[..i] + [segments[i]];
    }
    assert segments[..|segments|] == segments;
    assert message == segments[2] && field == segments[3];
    assert forall b :: b in bindings ==> b in segments;
    var encoded := EncodeLoop(segments);
    var info := EncodeLoop(segments[..4]);
    assert segments[..4] == [VERSION, direction, message, field];
    ReadBack(segments[..4], bindings);
    return Some((encoded, info));
  }

  /** Both parts of a context say what they were made from. */
  lemma ReadBack(head: seq<string>, bindings: seq<string>)
    ensures Decode(Encode(head + bindings)) == Some(head + bindings)
    ensures Decode(Encode(head)) == Some(head) && Encode(head) <= Encode(head + bindings)
  {
    DecodeEncode(head + bindings);
    DecodeEncode(head);
    DomainIsPrefix(head, bindings);
  }

  lemma EmptySegment(direction: string, message: string, field: string, bindings: seq<string>, i: nat)
    requires i < |Segments(direction, message, field, bindings)| && Segments(direction, message, field, bindings)[i] == ""
    ensures !Acceptable(direction, message, field, bindings)
  {
    assert |VERSION| > 0 && |AGENT_TO_CONTROL| > 0 && |CONTROL_TO_AGENT| > 0;
    if i >= 4 {
      assert bindings[i - 4] == "";
    }
  }

  /** The loop both results are built with. */
  method EncodeLoop(segments: seq<string>) returns (encoded: string)
    ensures encoded == Encode(segments)
  {
    encoded := [];
    for i := 0 to |segments|
      invariant encoded == Encode(segments[..i])
    {
      assert segments[..i + 1][..i] == segments[..i];
      encoded := encoded + Decimal(|segments[i]|);
      encoded := encoded + [':'];
      encoded := encoded + segments[i];
      assert encoded == Encode(segments[..i]) + Frame(segments[i]);
    }
    assert segments[..|segments|] == segments;
  }

  // ----- reading it back -----

  /** A reader of the encoding: digits up to the colon, then that many bytes. */
  function Decode(s: string): Option<seq<string>>
    decreases |s|
  {
    if s == [] then Some([]) else
    var k := IndexByte(s, ':');
    if k < 0 || !AllDigits(s[..k]) then None else
    var n := DigitsValue(s[..k]);
    if k + 1 + n > |s| then None else
    match Decode(s[k + 1 + n..])
    case None => None
    case Some(rest) => Some([s[k + 1..k + 1 + n]] + rest)
  }

  /** The first frame of a text is read off as it was written. */
  lemma DecodeFrame(segment: string, rest: string)
    ensures Decode(Frame(segment) + rest) ==
            match Decode(rest) case None => None case Some(more) => Some([segment] + more)
  {
    var digits := Decimal(|segment|);
    var s := Frame(segment) + rest;
    assert s == digits + [':'] + (segment + rest);
    assert ':' !in digits by { assert AllDigits(digits); }
    IndexByteAt(digits, ':', segment + rest);
    assert s[..|digits|] == digits;
    DecimalValue(|segment|);
    assert s[|digits| + 1..|digits| + 1 + |segment|] == segment;
    assert s[|digits| + 1 + |segment|..] == rest;
  }

  /** The same encoding, peeled from the front. */
  lemma {:induction false} EncodeFront(segments: seq<string>)
    requires segments != []
    ensures Encode(segments) == Frame(segments[0]) + Encode(segments[1..])
  {
    hide Frame;
    var init := segments[..|segments| - 1];
    if |segments| == 1 {
      assert init == [] && segments[1..] == [];
    } else {
      EncodeFront(init);
      assert segments[1..][..|segments| - 2] == init[1..];
    }
  }

  /** Every list of segments, empty ones included, is read back from its encoding. */
  lemma {:induction false} DecodeEncode(segments: seq<string>)
    ensures Decode(Encode(segments)) == Some(segments)
  {
    hide Decode, Frame;
    if segments == [] {
      DecodeNothing();
    } else {
      EncodeFront(segments);
      DecodeEncode(segments[1..]);
      DecodeFrame(segments[0], Encode(segments[1..]));
      assert segments == [segments[0]] + segments[1..];
    }
  }

  lemma DecodeNothing()
    ensures Decode([]) == Some([])
  {
  }

  /** Two contexts with the same authenticated data are the same context, and so share the derivation domain;
      two with the same derivation domain differ at most in their bindings. */
  lemma ContextsNeverCollide(direction: string, message: string, field: string, bindings: seq<string>,
                             direction': string, message': string, field': string, bindings': seq<string>)
    ensures Encode(Segments(direction, message, field, bindings)) == Encode(Segments(direction', message', field', bindings')) <==>
              direction == direction' && message == message' && field == field' && bindings == bindings'
    ensures Encode([VERSION, direction, message, field]) == Encode([VERSION, direction', message', field']) <==>
              direction == direction' && message == message' && field == field'
  {
    hide Encode;
    var s, s' := Segments(direction, message, field, bindings), Segments(direction', message', field', bindings');
    DecodeEncode(s);
    DecodeEncode(s');
    if s == s' {
      assert s[1] == s'[1] && s[2] == s'[2] && s[3] == s'[3];
      assert s[4..] == bindings && s'[4..] == bindings';
    }
    var h, h' := [VERSION, direction, message, field], [VERSION, direction', message', field'];
    DecodeEncode(h);
    DecodeEncode(h');
    if h == h' {
      assert h[1] == h'[1] && h[2] == h'[2] && h[3] == h'[3];
    }
  }

  /** The derivation domain is a prefix of the authenticated data. */
  lemma {:induction false} DomainIsPrefix(head: seq<string>, bindings: seq<string>)
    ensures Encode(head) <= Encode(head + bindings)
  {
    hide Frame;
    if bindings == [] {
      assert head + bindings == head;
    } else {
      DomainIsPrefix(head, bindings[..|bindings| - 1]);
      assert (head + bindings)[..|head + bindings| - 1] == head + bindings[..|bindings| - 1];
    }
  }
}
