/** The paste-identifier codec: the 62-symbol alphabet, the check applied to
    untrusted path segments, and the generation of fresh identifiers from a
    stream of random draws. */
module PasteIds {
  import opened Wrappers

  /** Rust's `usize` on a 64-bit target; the type of each random draw. */
  type Usize = x: int | 0 <= x < 0x1_0000_0000_0000_0000

  /** A _probably_ unique paste identifier: the string it wraps. The Rust type
      wraps either a borrowed or an owned string; that distinction is about
      lifetimes only, so here it is one immutable string. */
  datatype PasteId = PasteId(id: string)

  /** One symbol of the alphabet: an ASCII lower-case letter, upper-case letter or digit. */
  predicate IsBase62Char(c: char)
  {
    ('a' <= c <= 'z') || ('A' <= c <= 'Z') || ('0' <= c <= '9')
  }

  /** The alphabet check on a path segment: every character is a symbol.
      The empty string passes, as `all` over no characters holds. */
  predicate IsBase62(id: string)
  {
    forall i :: 0 <= i < |id| ==> IsBase62Char(id[i])
  }

  /** The symbol of ordinal `i`, in closed form: ten digits, then the 26
      lower-case letters, then the 26 upper-case letters. */
  function Base62(i: nat): (c: char)
    requires i < 62
    ensures IsBase62Char(c)
  {
    if i < 10 then ('0' as int + i) as char
    else if i < 36 then ('a' as int + (i - 10)) as char
    else ('A' as int + (i - 36)) as char
  }

  /** The nested helper `chars_len`: how many characters `start..=end` spans. */
  function CharsLen(start: char, end: char): int
    requires start <= end < 128 as char
  {
    end as int - start as int + 1
  }

  /** The nested helper `char_off`: the character `off` places after `start`;
      its `assert!` makes a negative offset a panic. */
  function CharOff(start: char, off: int): char
    requires 0 <= off && start as int + off < 256
  {
    (start as int + off) as char
  }

  /** `base62_char`: walks `posn` down through the three ranges in turn.
      An index past 61 panics, so callers must stay below 62. */
  method Base62Char(idx: nat) returns (c: char)
    requires idx < 62
    ensures c == Base62(idx)
    ensures IsBase62Char(c)
  {
    var posn: int := idx;
    var top := CharsLen('0', '9');
    if posn < top {
      return CharOff('0', posn);
    }
    posn := posn - top;
    top := CharsLen('a', 'z');
    if posn < top {
      return CharOff('a', posn);
    }
    posn := posn - top;
    top := CharsLen('A', 'Z');
    if posn < top {
      return CharOff('A', posn);
    }
    assert false;
  }

  /** Distinct ordinals give distinct symbols. */
  lemma Base62Injective(i: nat, j: nat)
    requires i < 62 && j < 62
    requires Base62(i) == Base62(j)
    ensures i == j
  {
  }

  /** `c` is the symbol of some ordinal. */
  ghost predicate IsOrdinalSymbol(c: char)
  {
    exists i: nat :: i < 62 && Base62(i) == c
  }

  /** Every symbol of the alphabet is the image of some ordinal, and only
      symbols are: together with Base62Injective, `base62_char` is a
      bijection from 0..61 onto the alphabet. */
  lemma Base62Onto(c: char)
    ensures IsOrdinalSymbol(c) <==> IsBase62Char(c)
  {
    if IsBase62Char(c) {
      var i: nat;
      if c <= '9' {
        i := c as int - '0' as int;
      } else if c <= 'Z' {
        i := c as int - 'A' as int + 36;
      } else {
        i := c as int - 'a' as int + 10;
      }
      assert Base62(i) == c;
    }
  }

  /** The alphabet check accepts exactly the strings made of `base62_char`'s outputs. */
  lemma IsBase62IffImage(s: string)
    ensures IsBase62(s) <==> forall k :: 0 <= k < |s| ==> IsOrdinalSymbol(s[k])
  {
    forall k | 0 <= k < |s| {
      Base62Onto(s[k]);
    }
  }

  /** Path separators, dots, spaces and anything outside ASCII never pass
      the check, so a validated segment cannot climb out of the upload directory. */
  lemma IsBase62RejectsTraversal(s: string, k: nat)
    requires k < |s|
    requires s[k] == '/' || s[k] == '.' || s[k] == ' ' || s[k] as int >= 128
    ensures !IsBase62(s)
  {
  }

  /** `from_param`: a segment that passes the check is wrapped as it is;
      any other is handed back unchanged as the error. */
  function FromParam(param: string): (r: Result<PasteId, string>)
    ensures r.Ok? <==> IsBase62(param)
    ensures r.Ok? ==> r.value.id == param
    ensures r.Err? ==> r.error == param
  {
    if IsBase62(param) then Ok(PasteId(param)) else Err(param)
  }

  /** `Display::fmt`: the text written for an identifier. */
  function Display(p: PasteId): string
  {
    p.id
  }

  /** Validating a segment and displaying the result gives the segment back. */
  lemma DisplayFromParam(param: string)
    requires IsBase62(param)
    ensures FromParam(param).Ok?
    ensures Display(FromParam(param).value) == param
  {
  }

  /** Displaying an identifier over the alphabet and validating the text
      gives the same identifier back. */
  lemma FromParamDisplay(p: PasteId)
    requires IsBase62(p.id)
    ensures FromParam(Display(p)) == Ok(p)
  {
  }

  /** `PasteID::new`: one symbol per draw, reduced modulo 62, pushed in draw
      order. The thread-local generator is replaced by the sequence `draws`,
      of which the first `size` are consumed. */
  method New(size: nat, draws: seq<Usize>) returns (p: PasteId)
    requires size <= |draws|
    ensures |p.id| == size
    ensures forall k :: 0 <= k < size ==> p.id[k] == Base62(draws[k] % 62)
    ensures IsBase62(p.id)
  {
    var id: string := [];
    for i := 0 to size
      invariant |id| == i
      invariant forall k :: 0 <= k < i ==> id[k] == Base62(draws[k] % 62)
    {
      var c := Base62Char(draws[i] % 62);
      id := id + [c];
    }
    p := PasteId(id);
  }
}
