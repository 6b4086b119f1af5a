/**
 Records of big-endian fields: what the readers and writers of the wire format are made of.
 */
module WireFields {
  import opened Basics
  import opened Words

  datatype Option<T> = None | Some(value: T)

  datatype Field = Field(width: nat, value: nat)

  /** How many values a field of `w` bytes has. */
  function Room(w: nat): nat {
    if w == 0 then 1 else 256 * Room(w - 1)
  }

  /** `to_be_bytes`. */
  function Put(v: nat, w: nat): (s: seq<byte>)
    ensures |s| == w
    decreases w
  {
    if w == 0 then [] else Put(v / 256, w - 1) + [v % 256]
  }

  /** `from_be_bytes`. */
  function Get(s: seq<byte>): nat {
    if s == [] then 0 else Get(s[..|s| - 1]) * 256 + s[|s| - 1]
  }

  lemma {:induction false} GetPut(v: nat, w: nat)
    requires v < Room(w)
    ensures Get(Put(v, w)) == v
    decreases w
  {
    if w > 0 {
      GetPut(v / 256, w - 1);
      assert Put(v, w)[..w - 1] == Put(v / 256, w - 1);
    }
  }

  lemma {:induction false} PutGet(s: seq<byte>)
    ensures Get(s) < Room(|s|) && Put(Get(s), |s|) == s
  {
    if s != [] {
      var n := |s| - 1;
      PutGet(s[..n]);
      assert Get(s) / 256 == Get(s[..n]) && Get(s) % 256 == s[n];
    }
  }

  // ---- Several fields in a row ----

  function PutAll(fields: seq<Field>): seq<byte> {
    if fields == [] then [] else Put(fields[0].value, fields[0].width) + PutAll(fields[1..])
  }

  /** The fields of the given widths, and what follows them, if the bytes are there. */
  function GetAll(widths: seq<nat>, buf: seq<byte>): (r: Option<(seq<Field>, seq<byte>)>)
    ensures r.Some? ==> |r.value.0| == |widths|
    decreases |widths|
  {
    if widths == [] then Some(([], buf))
    else if |buf| < widths[0] then None
    else
      match GetAll(widths[1..], buf[widths[0]..])
      case None => None
      case Some((fields, rest)) => Some(([Field(widths[0], Get(buf[..widths[0]]))] + fields, rest))
  }

  function Widths(fields: seq<Field>): (r: seq<nat>)
    ensures |r| == |fields| && forall i :: 0 <= i < |r| ==> r[i] == fields[i].width
  {
    if fields == [] then [] else [fields[0].width] + Widths(fields[1..])
  }

  ghost predicate Fit(fields: seq<Field>) {
    forall i :: 0 <= i < |fields| ==> fields[i].value < Room(fields[i].width)
  }

  function Size(widths: seq<nat>): nat {
    if widths == [] then 0 else widths[0] + Size(widths[1..])
  }

  /** A field in front. */
  function Ahead(f: Field, r: Option<(seq<Field>, seq<byte>)>): Option<(seq<Field>, seq<byte>)> {
    match r
    case None => None
    case Some((fields, rest)) => Some(([f] + fields, rest))
  }

  lemma GetStep(w: nat, others: seq<nat>, first: seq<byte>, more: seq<byte>)
    requires |first| == w
    ensures GetAll([w] + others, first + more) == Ahead(Field(w, Get(first)), GetAll(others, more))
  {
    hide Get;
    assert ([w] + others)[1..] == others;
    assert (first + more)[..w] == first && (first + more)[w..] == more;
  }

  /** What was written is read back. */
  lemma {:induction false} GetPutAll(fields: seq<Field>, rest: seq<byte>)
    requires Fit(fields)
    ensures GetAll(Widths(fields), PutAll(fields) + rest) == Some((fields, rest))
    decreases |fields|
  {
    hide Get, Put, Room, GetAll, PutAll, Widths, Fit;
    if fields == [] {
      NoFields(rest);
    } else {
      var f, others := fields[0], fields[1..];
      OneFewer(fields);
      OneMore(f, others);
      GetPut(f.value, f.width);
      GetPutAll(others, rest);
      GetStep(f.width, Widths(others), Put(f.value, f.width), PutAll(others) + rest);
      Regroup(Put(f.value, f.width), PutAll(others), rest);
    }
  }

  /** What was read is what was written there. */
  lemma {:induction false} PutGetAll(widths: seq<nat>, buf: seq<byte>)
    requires GetAll(widths, buf).Some?
    ensures var (fields, rest) := GetAll(widths, buf).value;
            Widths(fields) == widths && Fit(fields) && PutAll(fields) + rest == buf
    decreases |widths|
  {
    hide Get, Put, Room, Widths, Fit, GetAll, PutAll;
    if widths == [] {
      NoFields(buf);
    } else {
      var w, others := widths[0], widths[1..];
      var first, more := Cut(widths, buf);
      assert [w] + others == widths;
      GetStep(w, others, first, more);
      PutGet(first);
      PutGetAll(others, more);
      var (fields, rest) := GetAll(others, more).value;
      OneMore(Field(w, Get(first)), fields);
      Regroup(first, PutAll(fields), rest);
    }
  }

  lemma Cut(widths: seq<nat>, buf: seq<byte>) returns (first: seq<byte>, more: seq<byte>)
    requires widths != [] && GetAll(widths, buf).Some?
    ensures |first| == widths[0] && first + more == buf
  {
    first, more := buf[..widths[0]], buf[widths[0]..];
  }

  lemma NoFields(rest: seq<byte>)
    ensures Widths([]) == [] && Fit([]) && PutAll([]) + rest == rest && GetAll([], rest) == Some(([], rest))
  {
  }

  lemma OneFewer(fields: seq<Field>)
    requires fields != [] && Fit(fields)
    ensures [fields[0]] + fields[1..] == fields && fields[0].value < Room(fields[0].width) && Fit(fields[1..])
  {
  }

  lemma OneMore(f: Field, others: seq<Field>)
    requires f.value < Room(f.width) && Fit(others)
    ensures Fit([f] + others) && Widths([f] + others) == [f.width] + Widths(others)
    ensures PutAll([f] + others) == Put(f.value, f.width) + PutAll(others)
  {
  }

  /** The reader fails exactly when the bytes run out. */
  lemma {:induction false} GetAllShort(widths: seq<nat>, buf: seq<byte>)
    ensures GetAll(widths, buf).Some? <==> Size(widths) <= |buf|
    ensures GetAll(widths, buf).Some? ==> |GetAll(widths, buf).value.1| == |buf| - Size(widths)
    decreases |widths|
  {
    if widths != [] && widths[0] <= |buf| {
      GetAllShort(widths[1..], buf[widths[0]..]);
    }
  }

  lemma {:induction false} PutAllSize(fields: seq<Field>)
    ensures |PutAll(fields)| == Size(Widths(fields))
  {
    if fields != [] {
      PutAllSize(fields[1..]);
      assert Widths(fields)[1..] == Widths(fields[1..]);
    }
  }
}
