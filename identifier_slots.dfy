/**
 * Uniqueness of the identifiers of the status table, discharged by computation.
 * Comparing all 165 identifiers pairwise is more than the verifier can evaluate at
 * once, so the proof goes through a discrimination function instead: `Slot` tells
 * the identifiers apart by their length and a few of their last characters, and returns the identifier's place. Since `Slot(Id(Codes, p)) == p`
 * for every place `p`, two places holding the same identifier are the same place.
 * Each entry is checked by a lemma of its own.
 */
module IdentifierSlots {
  import opened StatusTable

  /** The `i`-th character from the end of `s`, or a space when `s` is shorter. */
  function At(s: string, i: nat): char {
    if i < |s| then s[|s| - 1 - i] else ' '
  }

  /** The place in `Codes` of an identifier of the table (some place for any other string). */
  function Slot(s: string): Pos {
    if At(s, 0) < 'l' then
      if At(s, 7) < 'c' then
        if |s| < 15 then
          if |s| < 7 then
            if At(s, 0) < 'e' then
              if |s| < 6 then
                if At(s, 1) < 'n' then
                  Pos(18, 3)
                else
                  Pos(22, 1)
              else
                if At(s, 2) < 'l' then
                  Pos(39, 0)
                else
                  if At(s, 2) < 's' then
                    Pos(0, 3)
                  else
                    Pos(9, 0)
            else
              if |s| < 5 then
                if |s| < 4 then
                  Pos(0, 0)
                else
                  Pos(28, 0)
              else
                if |s| < 6 then
                  if At(s, 0) < 'k' then
                    Pos(27, 2)
                  else
                    Pos(0, 2)
                else
                  Pos(41, 3)
          else
            if |s| < 11 then
              if At(s, 1) < 'i' then
                if |s| < 8 then
                  if At(s, 2) < 'w' then
                    Pos(1, 0)
                  else
                    Pos(21, 2)
                else
                  Pos(2, 0)
              else
                if At(s, 0) < 'e' then
                  Pos(18, 1)
                else
                  Pos(28, 1)
            else
              if |s| < 12 then
                if At(s, 2) < 'i' then
                  Pos(57, 0)
                else
                  if At(s, 2) < 't' then
                    Pos(14, 0)
                  else
                    Pos(2, 1)
              else
                if |s| < 14 then
                  Pos(55, 0)
                else
                  if At(s, 1) < 'n' then
                    Pos(29, 0)
                  else
                    Pos(12, 0)
        else
          if At(s, 11) < 'm' then
            if At(s, 9) < 'i' then
              if |s| < 18 then
                if At(s, 0) < 'e' then
                  Pos(8, 0)
                else
                  Pos(31, 0)
              else
                if |s| < 27 then
                  if At(s, 0) < 'e' then
                    Pos(8, 1)
                  else
                    Pos(31, 1)
                else
                  Pos(45, 0)
            else
              if |s| < 18 then
                if At(s, 8) < 't' then
                  Pos(25, 0)
                else
                  Pos(29, 1)
              else
                if |s| < 20 then
                  Pos(42, 1)
                else
                  if |s| < 22 then
                    Pos(25, 1)
                  else
                    Pos(56, 0)
          else
            if |s| < 20 then
              if |s| < 17 then
                if At(s, 2) < 't' then
                  if At(s, 8) < 't' then
                    Pos(42, 0)
                  else
                    Pos(20, 0)
                else
                  Pos(55, 1)
              else
                if |s| < 18 then
                  Pos(12, 2)
                else
                  Pos(20, 1)
            else
              if |s| < 25 then
                if |s| < 23 then
                  Pos(43, 0)
                else
                  Pos(43, 1)
              else
                if |s| < 29 then
                  Pos(56, 1)
                else
                  if |s| < 32 then
                    Pos(58, 0)
                  else
                    Pos(58, 1)
      else
        if At(s, 2) < 'o' then
          if At(s, 3) < 'c' then
            if |s| < 18 then
              if |s| < 16 then
                if |s| < 13 then
                  Pos(24, 1)
                else
                  Pos(24, 0)
              else
                if At(s, 4) < 'l' then
                  Pos(34, 1)
                else
                  if At(s, 10) < 'g' then
                    Pos(50, 1)
                  else
                    Pos(54, 2)
            else
              if |s| < 19 then
                if At(s, 8) < 'a' then
                  Pos(56, 2)
                else
                  Pos(50, 0)
              else
                if |s| < 29 then
                  if At(s, 1) < 'm' then
                    Pos(34, 0)
                  else
                    Pos(41, 2)
                else
                  Pos(45, 1)
          else
            if At(s, 3) < 'n' then
              if |s| < 14 then
                if At(s, 2) < 'k' then
                  Pos(14, 1)
                else
                  Pos(39, 1)
              else
                if |s| < 17 then
                  Pos(1, 2)
                else
                  if |s| < 18 then
                    Pos(35, 0)
                  else
                    Pos(30, 0)
            else
              if |s| < 19 then
                if |s| < 17 then
                  Pos(57, 1)
                else
                  if At(s, 1) < 'v' then
                    Pos(54, 1)
                  else
                    Pos(51, 2)
              else
                if |s| < 21 then
                  Pos(54, 0)
                else
                  Pos(53, 2)
        else
          if At(s, 3) < 'n' then
            if |s| < 12 then
              if |s| < 10 then
                if |s| < 9 then
                  Pos(2, 2)
                else
                  Pos(9, 1)
              else
                if At(s, 0) < 'g' then
                  if At(s, 2) < 'z' then
                    Pos(1, 1)
                  else
                    Pos(19, 1)
                else
                  Pos(32, 0)
            else
              if |s| < 18 then
                if |s| < 13 then
                  Pos(19, 0)
                else
                  if At(s, 0) < 'g' then
                    Pos(19, 2)
                  else
                    Pos(32, 1)
              else
                if |s| < 20 then
                  Pos(33, 1)
                else
                  Pos(33, 0)
          else
            if |s| < 16 then
              if |s| < 11 then
                if |s| < 9 then
                  Pos(22, 0)
                else
                  Pos(21, 3)
              else
                if |s| < 13 then
                  Pos(48, 1)
                else
                  if |s| < 14 then
                    Pos(23, 1)
                  else
                    Pos(48, 0)
            else
              if |s| < 18 then
                if |s| < 17 then
                  if At(s, 2) < 'w' then
                    Pos(40, 3)
                  else
                    Pos(23, 0)
                else
                  Pos(35, 3)
              else
                if |s| < 20 then
                  Pos(30, 3)
                else
                  if |s| < 23 then
                    Pos(52, 1)
                  else
                    Pos(52, 0)
    else
      if At(s, 3) < 'r' then
        if At(s, 1) < 'l' then
          if At(s, 3) < 'l' then
            if |s| < 16 then
              if |s| < 11 then
                if |s| < 10 then
                  Pos(21, 0)
                else
                  Pos(49, 0)
              else
                if |s| < 12 then
                  Pos(49, 1)
                else
                  if |s| < 15 then
                    Pos(21, 1)
                  else
                    Pos(10, 0)
            else
              if |s| < 20 then
                if |s| < 18 then
                  Pos(40, 0)
                else
                  Pos(10, 1)
              else
                if |s| < 21 then
                  Pos(40, 1)
                else
                  if |s| < 24 then
                    Pos(53, 0)
                  else
                    Pos(53, 1)
          else
            if |s| < 15 then
              if |s| < 11 then
                if |s| < 8 then
                  Pos(39, 2)
                else
                  Pos(27, 0)
              else
                if |s| < 14 then
                  Pos(27, 1)
                else
                  if At(s, 0) < 't' then
                    Pos(29, 2)
                  else
                    Pos(35, 2)
            else
              if |s| < 17 then
                if At(s, 0) < 't' then
                  if At(s, 8) < 't' then
                    Pos(42, 2)
                  else
                    Pos(20, 2)
                else
                  Pos(30, 2)
              else
                if |s| < 20 then
                  Pos(25, 2)
                else
                  if |s| < 29 then
                    Pos(43, 2)
                  else
                    Pos(58, 2)
        else
          if |s| < 14 then
            if |s| < 11 then
              if |s| < 8 then
                if At(s, 0) < 't' then
                  Pos(55, 2)
                else
                  Pos(36, 0)
              else
                if |s| < 9 then
                  if At(s, 0) < 'y' then
                    Pos(32, 2)
                  else
                    Pos(41, 0)
                else
                  Pos(36, 1)
            else
              if At(s, 1) < 't' then
                if |s| < 12 then
                  if At(s, 0) < 'y' then
                    Pos(26, 2)
                  else
                    Pos(41, 1)
                else
                  Pos(31, 2)
              else
                if |s| < 12 then
                  if At(s, 1) < 'u' then
                    Pos(44, 2)
                  else
                    Pos(7, 0)
                else
                  Pos(7, 2)
          else
            if |s| < 17 then
              if |s| < 15 then
                if At(s, 0) < 't' then
                  Pos(7, 1)
                else
                  if At(s, 7) < 'y' then
                    Pos(26, 0)
                  else
                    Pos(51, 0)
              else
                if |s| < 16 then
                  Pos(44, 0)
                else
                  Pos(11, 0)
            else
              if |s| < 18 then
                if At(s, 7) < 'y' then
                  Pos(26, 1)
                else
                  Pos(51, 1)
              else
                if |s| < 19 then
                  Pos(44, 1)
                else
                  if |s| < 24 then
                    Pos(11, 1)
                  else
                    Pos(45, 2)
      else
        if |s| < 14 then
          if At(s, 5) < 'n' then
            if At(s, 2) < 'h' then
              if At(s, 1) < 's' then
                if |s| < 10 then
                  Pos(12, 1)
                else
                  Pos(12, 3)
              else
                if |s| < 11 then
                  if At(s, 0) < 't' then
                    Pos(0, 1)
                  else
                    Pos(18, 0)
                else
                  Pos(18, 2)
            else
              if |s| < 11 then
                if |s| < 8 then
                  Pos(15, 1)
                else
                  if At(s, 0) < 'y' then
                    Pos(13, 0)
                  else
                    Pos(15, 0)
              else
                if At(s, 0) < 'y' then
                  Pos(13, 1)
                else
                  Pos(15, 2)
          else
            if |s| < 11 then
              if At(s, 3) < 's' then
                if At(s, 0) < 't' then
                  Pos(47, 1)
                else
                  Pos(18, 4)
              else
                if |s| < 9 then
                  if At(s, 3) < 't' then
                    Pos(28, 2)
                  else
                    Pos(4, 2)
                else
                  Pos(4, 0)
            else
              if |s| < 13 then
                if |s| < 12 then
                  Pos(6, 3)
                else
                  if At(s, 7) < 't' then
                    Pos(4, 1)
                  else
                    Pos(5, 0)
              else
                if At(s, 1) < 'n' then
                  Pos(40, 2)
                else
                  Pos(6, 2)
        else
          if |s| < 20 then
            if At(s, 1) < 'o' then
              if |s| < 17 then
                if |s| < 15 then
                  Pos(6, 0)
                else
                  Pos(5, 1)
              else
                if At(s, 1) < 'n' then
                  if At(s, 8) < 'y' then
                    Pos(17, 0)
                  else
                    Pos(16, 0)
                else
                  Pos(6, 1)
            else
              if |s| < 18 then
                if |s| < 17 then
                  Pos(37, 2)
                else
                  Pos(38, 1)
              else
                if |s| < 19 then
                  Pos(37, 0)
                else
                  if At(s, 0) < 'y' then
                    Pos(47, 0)
                  else
                    Pos(38, 0)
          else
            if |s| < 24 then
              if |s| < 21 then
                if At(s, 8) < 'y' then
                  Pos(17, 1)
                else
                  Pos(16, 1)
              else
                if |s| < 22 then
                  Pos(35, 1)
                else
                  if At(s, 0) < 'r' then
                    Pos(30, 1)
                  else
                    Pos(47, 2)
            else
              if |s| < 26 then
                if At(s, 0) < 's' then
                  Pos(3, 2)
                else
                  if At(s, 0) < 't' then
                    Pos(46, 1)
                  else
                    Pos(37, 1)
              else
                if |s| < 27 then
                  Pos(46, 0)
                else
                  if |s| < 30 then
                    Pos(3, 0)
                  else
                    Pos(3, 1)
  }


  /** `Slot` recovers the place of every identifier of `e`, the entry at index `k`. */
  predicate Slotted(e: Entry, k: nat) {
    forall m :: 0 <= m < |Ids(e)| ==> Slot(Ids(e)[m]) == Pos(k, m)
  }

  /** `Slotted` holds for every entry of `b`, a block starting at index `offset` of the table. */
  predicate BlockSlotted(b: seq<Entry>, offset: nat) {
    forall k :: 0 <= k < |b| ==> Slotted(b[k], offset + k)
  }

  lemma BlockSlottedAppend(a: seq<Entry>, b: seq<Entry>, offset: nat)
    requires BlockSlotted(a, offset) && BlockSlotted(b, offset + |a|)
    ensures BlockSlotted(a + b, offset)
  {
    forall k | 0 <= k < |a + b|
      ensures Slotted((a + b)[k], offset + k)
    {
      if k < |a| {
        assert (a + b)[k] == a[k];
      } else {
        assert (a + b)[k] == b[k - |a|];
      }
    }
  }

  /** A table in which `Slot` recovers every place has no identifier twice. */
  lemma UniqueFromSlots(t: seq<Entry>)
    requires BlockSlotted(t, 0)
    ensures UniqueIdentifiers(t)
  {
    forall p, q | ValidPos(t, p) && ValidPos(t, q) && Id(t, p) == Id(t, q)
      ensures p == q
    {
      assert Slotted(t[p.entry], p.entry) && Slotted(t[q.entry], q.entry);
      assert Slot(Id(t, p)) == p && Slot(Id(t, q)) == q;
    }
  }

  /** The identifiers of the table are pairwise distinct. */
  lemma CodesUniqueIdentifiers()
    ensures UniqueIdentifiers(Codes)
  {
    SuccessfulSlotted();
    RedirectionSlotted();
    ClientErrorSlotted();
    ServerErrorSlotted();
    BlockSlottedAppend(Successful, Redirection, 0);
    BlockSlottedAppend(Successful + Redirection, ClientError, 0);
    BlockSlottedAppend(Successful + Redirection + ClientError, ServerError, 0);
    UniqueFromSlots(Codes);
  }

  /** The table meets every condition the generator relies on. */
  lemma CodesWellFormed()
    ensures WellFormed(Codes)
  {
    CodesBlockWellFormed();
    AscendingFromAdjacent(Codes);
    CodesUniqueIdentifiers();
    CodesHaveBodylessCodes();
  }

  lemma SuccessfulSlotted()
    ensures BlockSlotted(Successful, 0)
  {
    Slotted200(); Slotted201(); Slotted202(); Slotted203(); Slotted204(); Slotted205(); Slotted206(); Slotted207();
    Slotted208(); Slotted226();
  }

  lemma Slotted200()
    ensures Slotted(Successful[0], 0)
  {
    assert Slot("ok") == Pos(0, 0);
    assert Slot("successful") == Pos(0, 1);
    assert Slot("notOk") == Pos(0, 2);
    assert Slot("failed") == Pos(0, 3);
  }

  lemma Slotted201()
    ensures Slotted(Successful[1], 1)
  {
    assert Slot("created") == Pos(1, 0);
    assert Slot("notCreated") == Pos(1, 1);
    assert Slot("creationFailed") == Pos(1, 2);
  }

  lemma Slotted202()
    ensures Slotted(Successful[2], 2)
  {
    assert Slot("accepted") == Pos(2, 0);
    assert Slot("notAccepted") == Pos(2, 1);
    assert Slot("rejected") == Pos(2, 2);
  }

  lemma Slotted203()
    ensures Slotted(Successful[3], 3)
  {
    assert Slot("nonAuthoritativeInformation") == Pos(3, 0);
    assert Slot("notNonAuthoritativeInformation") == Pos(3, 1);
    assert Slot("authoritativeInformation") == Pos(3, 2);
  }

  lemma Slotted204()
    ensures Slotted(Successful[4], 4)
  {
    assert Slot("noContent") == Pos(4, 0);
    assert Slot("notNoContent") == Pos(4, 1);
    assert Slot("content") == Pos(4, 2);
  }

  lemma Slotted205()
    ensures Slotted(Successful[5], 5)
  {
    assert Slot("resetContent") == Pos(5, 0);
    assert Slot("notResetContent") == Pos(5, 1);
  }

  lemma Slotted206()
    ensures Slotted(Successful[6], 6)
  {
    assert Slot("partialContent") == Pos(6, 0);
    assert Slot("notPartialContent") == Pos(6, 1);
    assert Slot("entireContent") == Pos(6, 2);
    assert Slot("fullContent") == Pos(6, 3);
  }

  lemma Slotted207()
    ensures Slotted(Successful[7], 7)
  {
    assert Slot("multiStatus") == Pos(7, 0);
    assert Slot("notMultiStatus") == Pos(7, 1);
    assert Slot("singleStatus") == Pos(7, 2);
  }

  lemma Slotted208()
    ensures Slotted(Successful[8], 8)
  {
    assert Slot("alreadyReported") == Pos(8, 0);
    assert Slot("notAlreadyReported") == Pos(8, 1);
  }

  lemma Slotted226()
    ensures Slotted(Successful[9], 9)
  {
    assert Slot("imUsed") == Pos(9, 0);
    assert Slot("notImUsed") == Pos(9, 1);
  }

  lemma RedirectionSlotted()
    ensures BlockSlotted(Redirection, 10)
  {
    Slotted300(); Slotted301(); Slotted302(); Slotted303(); Slotted304(); Slotted305(); Slotted307(); Slotted308();
  }

  lemma Slotted300()
    ensures Slotted(Redirection[0], 10)
  {
    assert Slot("multipleChoices") == Pos(10, 0);
    assert Slot("notMultipleChoices") == Pos(10, 1);
  }

  lemma Slotted301()
    ensures Slotted(Redirection[1], 11)
  {
    assert Slot("movedPermanently") == Pos(11, 0);
    assert Slot("notMovedPermanently") == Pos(11, 1);
  }

  lemma Slotted302()
    ensures Slotted(Redirection[2], 12)
  {
    assert Slot("temporaryFound") == Pos(12, 0);
    assert Slot("redirect") == Pos(12, 1);
    assert Slot("notTemporaryFound") == Pos(12, 2);
    assert Slot("noRedirect") == Pos(12, 3);
  }

  lemma Slotted303()
    ensures Slotted(Redirection[3], 13)
  {
    assert Slot("seeOther") == Pos(13, 0);
    assert Slot("notSeeOther") == Pos(13, 1);
  }

  lemma Slotted304()
    ensures Slotted(Redirection[4], 14)
  {
    assert Slot("notModified") == Pos(14, 0);
    assert Slot("modified") == Pos(14, 1);
  }

  lemma Slotted305()
    ensures Slotted(Redirection[5], 15)
  {
    assert Slot("useProxy") == Pos(15, 0);
    assert Slot("proxy") == Pos(15, 1);
    assert Slot("notUseProxy") == Pos(15, 2);
  }

  lemma Slotted307()
    ensures Slotted(Redirection[6], 16)
  {
    assert Slot("temporaryRedirect") == Pos(16, 0);
    assert Slot("notTemporaryRedirect") == Pos(16, 1);
  }

  lemma Slotted308()
    ensures Slotted(Redirection[7], 17)
  {
    assert Slot("permanentRedirect") == Pos(17, 0);
    assert Slot("notPermanentRedirect") == Pos(17, 1);
  }

  /** The 4xx block is the largest; it is checked in three parts. */
  lemma ClientErrorSlotted()
    ensures BlockSlotted(ClientError, 18)
  {
    ClientErrorSlottedLow();
    ClientErrorSlottedMiddle();
    ClientErrorSlottedHigh();
  }

  lemma ClientErrorSlottedLow()
    ensures forall k :: 0 <= k < 10 ==> Slotted(ClientError[k], 18 + k)
  {
    Slotted400(); Slotted401(); Slotted402(); Slotted403(); Slotted404(); Slotted405(); Slotted406(); Slotted407();
    Slotted408(); Slotted409();
  }

  lemma ClientErrorSlottedMiddle()
    ensures forall k :: 10 <= k < 20 ==> Slotted(ClientError[k], 18 + k)
  {
    Slotted410(); Slotted411(); Slotted412(); Slotted413(); Slotted414(); Slotted415(); Slotted416(); Slotted417();
    Slotted418(); Slotted421();
  }

  lemma ClientErrorSlottedHigh()
    ensures forall k :: 20 <= k < 29 ==> Slotted(ClientError[k], 18 + k)
  {
    Slotted422(); Slotted423(); Slotted424(); Slotted425(); Slotted426(); Slotted428(); Slotted429(); Slotted431();
    Slotted451();
  }

  lemma Slotted400()
    ensures Slotted(ClientError[0], 18)
  {
    assert Slot("badRequest") == Pos(18, 0);
    assert Slot("invalid") == Pos(18, 1);
    assert Slot("goodRequest") == Pos(18, 2);
    assert Slot("valid") == Pos(18, 3);
    assert Slot("correct") == Pos(18, 4);
  }

  lemma Slotted401()
    ensures Slotted(ClientError[1], 19)
  {
    assert Slot("unauthorized") == Pos(19, 0);
    assert Slot("authorized") == Pos(19, 1);
    assert Slot("authenticated") == Pos(19, 2);
  }

  lemma Slotted402()
    ensures Slotted(ClientError[2], 20)
  {
    assert Slot("paymentRequired") == Pos(20, 0);
    assert Slot("paymentNotRequired") == Pos(20, 1);
    assert Slot("paymentOptional") == Pos(20, 2);
  }

  lemma Slotted403()
    ensures Slotted(ClientError[3], 21)
  {
    assert Slot("forbidden") == Pos(21, 0);
    assert Slot("notForbidden") == Pos(21, 1);
    assert Slot("allowed") == Pos(21, 2);
    assert Slot("permitted") == Pos(21, 3);
  }

  lemma Slotted404()
    ensures Slotted(ClientError[4], 22)
  {
    assert Slot("notFound") == Pos(22, 0);
    assert Slot("found") == Pos(22, 1);
  }

  lemma Slotted405()
    ensures Slotted(ClientError[5], 23)
  {
    assert Slot("methodNotAllowed") == Pos(23, 0);
    assert Slot("methodAllowed") == Pos(23, 1);
  }

  lemma Slotted406()
    ensures Slotted(ClientError[6], 24)
  {
    assert Slot("notAcceptable") == Pos(24, 0);
    assert Slot("acceptable") == Pos(24, 1);
  }

  lemma Slotted407()
    ensures Slotted(ClientError[7], 25)
  {
    assert Slot("proxyAuthRequired") == Pos(25, 0);
    assert Slot("proxyAuthNotRequired") == Pos(25, 1);
    assert Slot("proxyAuthOptional") == Pos(25, 2);
  }

  lemma Slotted408()
    ensures Slotted(ClientError[8], 26)
  {
    assert Slot("requestTimeout") == Pos(26, 0);
    assert Slot("notRequestTimeout") == Pos(26, 1);
    assert Slot("requestFast") == Pos(26, 2);
  }

  lemma Slotted409()
    ensures Slotted(ClientError[9], 27)
  {
    assert Slot("conflict") == Pos(27, 0);
    assert Slot("notConflict") == Pos(27, 1);
    assert Slot("match") == Pos(27, 2);
  }

  lemma Slotted410()
    ensures Slotted(ClientError[10], 28)
  {
    assert Slot("gone") == Pos(28, 0);
    assert Slot("notGone") == Pos(28, 1);
    assert Slot("present") == Pos(28, 2);
  }

  lemma Slotted411()
    ensures Slotted(ClientError[11], 29)
  {
    assert Slot("lengthRequired") == Pos(29, 0);
    assert Slot("lengthNotRequired") == Pos(29, 1);
    assert Slot("lengthOptional") == Pos(29, 2);
  }

  lemma Slotted412()
    ensures Slotted(ClientError[12], 30)
  {
    assert Slot("preconditionFailed") == Pos(30, 0);
    assert Slot("successfulPrecondition") == Pos(30, 1);
    assert Slot("preconditionMet") == Pos(30, 2);
    assert Slot("preconditionPassed") == Pos(30, 3);
  }

  lemma Slotted413()
    ensures Slotted(ClientError[13], 31)
  {
    assert Slot("payloadTooLarge") == Pos(31, 0);
    assert Slot("notPayloadTooLarge") == Pos(31, 1);
    assert Slot("payloadSmall") == Pos(31, 2);
  }

  lemma Slotted414()
    ensures Slotted(ClientError[14], 32)
  {
    assert Slot("uriTooLong") == Pos(32, 0);
    assert Slot("uriNotTooLong") == Pos(32, 1);
    assert Slot("uriShort") == Pos(32, 2);
  }

  lemma Slotted415()
    ensures Slotted(ClientError[15], 33)
  {
    assert Slot("unsupportedMediaType") == Pos(33, 0);
    assert Slot("supportedMediaType") == Pos(33, 1);
  }

  lemma Slotted416()
    ensures Slotted(ClientError[16], 34)
  {
    assert Slot("rangeNotSatisfiable") == Pos(34, 0);
    assert Slot("rangeSatisfiable") == Pos(34, 1);
  }

  lemma Slotted417()
    ensures Slotted(ClientError[17], 35)
  {
    assert Slot("expectationFailed") == Pos(35, 0);
    assert Slot("expectationSuccessful") == Pos(35, 1);
    assert Slot("expectationMet") == Pos(35, 2);
    assert Slot("expectationPassed") == Pos(35, 3);
  }

  lemma Slotted418()
    ensures Slotted(ClientError[18], 36)
  {
    assert Slot("teapot") == Pos(36, 0);
    assert Slot("notTeapot") == Pos(36, 1);
  }

  lemma Slotted421()
    ensures Slotted(ClientError[19], 37)
  {
    assert Slot("misdirectedRequest") == Pos(37, 0);
    assert Slot("correctlyDirectedRequest") == Pos(37, 1);
    assert Slot("directedRequest") == Pos(37, 2);
  }

  lemma Slotted422()
    ensures Slotted(ClientError[20], 38)
  {
    assert Slot("unprocessableEntity") == Pos(38, 0);
    assert Slot("processableEntity") == Pos(38, 1);
  }

  lemma Slotted423()
    ensures Slotted(ClientError[21], 39)
  {
    assert Slot("locked") == Pos(39, 0);
    assert Slot("unlocked") == Pos(39, 1);
    assert Slot("open") == Pos(39, 2);
  }

  lemma Slotted424()
    ensures Slotted(ClientError[22], 40)
  {
    assert Slot("failedDependency") == Pos(40, 0);
    assert Slot("successfulDependency") == Pos(40, 1);
    assert Slot("dependencyMet") == Pos(40, 2);
    assert Slot("dependencyPassed") == Pos(40, 3);
  }

  lemma Slotted425()
    ensures Slotted(ClientError[23], 41)
  {
    assert Slot("tooEarly") == Pos(41, 0);
    assert Slot("notTooEarly") == Pos(41, 1);
    assert Slot("afterSufficientTime") == Pos(41, 2);
    assert Slot("onTime") == Pos(41, 3);
  }

  lemma Slotted426()
    ensures Slotted(ClientError[24], 42)
  {
    assert Slot("upgradeRequired") == Pos(42, 0);
    assert Slot("upgradeNotRequired") == Pos(42, 1);
    assert Slot("upgradeOptional") == Pos(42, 2);
  }

  lemma Slotted428()
    ensures Slotted(ClientError[25], 43)
  {
    assert Slot("preconditionRequired") == Pos(43, 0);
    assert Slot("preconditionNotRequired") == Pos(43, 1);
    assert Slot("preconditionOptional") == Pos(43, 2);
  }

  lemma Slotted429()
    ensures Slotted(ClientError[26], 44)
  {
    assert Slot("tooManyRequests") == Pos(44, 0);
    assert Slot("notTooManyRequests") == Pos(44, 1);
    assert Slot("fewRequests") == Pos(44, 2);
  }

  lemma Slotted431()
    ensures Slotted(ClientError[27], 45)
  {
    assert Slot("requestHeaderFieldsTooLarge") == Pos(45, 0);
    assert Slot("requestHeaderFieldsAcceptable") == Pos(45, 1);
    assert Slot("requestHeaderFieldsSmall") == Pos(45, 2);
  }

  lemma Slotted451()
    ensures Slotted(ClientError[28], 46)
  {
    assert Slot("unavailableForLegalReasons") == Pos(46, 0);
    assert Slot("availableForLegalReasons") == Pos(46, 1);
  }

  lemma ServerErrorSlotted()
    ensures BlockSlotted(ServerError, 47)
  {
    Slotted500(); Slotted501(); Slotted502(); Slotted503(); Slotted504(); Slotted505(); Slotted506(); Slotted507();
    Slotted508(); Slotted509(); Slotted510(); Slotted511();
  }

  lemma Slotted500()
    ensures Slotted(ServerError[0], 47)
  {
    assert Slot("internalServerError") == Pos(47, 0);
    assert Slot("noError") == Pos(47, 1);
    assert Slot("notInternalServerError") == Pos(47, 2);
  }

  lemma Slotted501()
    ensures Slotted(ServerError[1], 48)
  {
    assert Slot("notImplemented") == Pos(48, 0);
    assert Slot("implemented") == Pos(48, 1);
  }

  lemma Slotted502()
    ensures Slotted(ServerError[2], 49)
  {
    assert Slot("badGateway") == Pos(49, 0);
    assert Slot("goodGateway") == Pos(49, 1);
  }

  lemma Slotted503()
    ensures Slotted(ServerError[3], 50)
  {
    assert Slot("serviceUnavailable") == Pos(50, 0);
    assert Slot("serviceAvailable") == Pos(50, 1);
  }

  lemma Slotted504()
    ensures Slotted(ServerError[4], 51)
  {
    assert Slot("gatewayTimeout") == Pos(51, 0);
    assert Slot("notGatewayTimeout") == Pos(51, 1);
    assert Slot("gatewayResponsive") == Pos(51, 2);
  }

  lemma Slotted505()
    ensures Slotted(ServerError[5], 52)
  {
    assert Slot("httpVersionNotSupported") == Pos(52, 0);
    assert Slot("httpVersionSupported") == Pos(52, 1);
  }

  lemma Slotted506()
    ensures Slotted(ServerError[6], 53)
  {
    assert Slot("variantAlsoNegotiates") == Pos(53, 0);
    assert Slot("notVariantAlsoNegotiates") == Pos(53, 1);
    assert Slot("variantNotNegotiating") == Pos(53, 2);
  }

  lemma Slotted507()
    ensures Slotted(ServerError[7], 54)
  {
    assert Slot("insufficientStorage") == Pos(54, 0);
    assert Slot("sufficientStorage") == Pos(54, 1);
    assert Slot("storageAvailable") == Pos(54, 2);
  }

  lemma Slotted508()
    ensures Slotted(ServerError[8], 55)
  {
    assert Slot("loopDetected") == Pos(55, 0);
    assert Slot("loopNotDetected") == Pos(55, 1);
    assert Slot("noLoop") == Pos(55, 2);
  }

  lemma Slotted509()
    ensures Slotted(ServerError[9], 56)
  {
    assert Slot("bandwidthLimitExceeded") == Pos(56, 0);
    assert Slot("bandwidthLimitNotExceeded") == Pos(56, 1);
    assert Slot("bandwidthAvailable") == Pos(56, 2);
  }

  lemma Slotted510()
    ensures Slotted(ServerError[10], 57)
  {
    assert Slot("notExtended") == Pos(57, 0);
    assert Slot("extended") == Pos(57, 1);
  }

  lemma Slotted511()
    ensures Slotted(ServerError[11], 58)
  {
    assert Slot("networkAuthenticationRequired") == Pos(58, 0);
    assert Slot("networkAuthenticationNotRequired") == Pos(58, 1);
    assert Slot("networkAuthenticationOptional") == Pos(58, 2);
  }
}
