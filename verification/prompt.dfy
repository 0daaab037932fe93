/**
  The prompt that EmailGeneratorService.buildPrompt sends to the language model:
  a fixed instruction sentence, an optional tone directive, then the original
  email under a fixed header.
 */
module PromptBuilder {

  import opened Wrappers

  /** An incoming request: the email to reply to and an optional tone (`None` is Java `null`). */
  datatype EmailRequest = EmailRequest(emailContent: string, tone: Option<string>)

  /** The sentence every prompt starts with (note the trailing space and the missing full stop). */
  const Instruction: string :=
    "Generate a professional email reply for the following content. Please do not generate a subject line "

  /** The two fixed halves of the tone directive, "Use a ... tone.". */
  const DirectiveOpen: string := "Use a "
  const DirectiveClose: string := " tone."

  /** The header that introduces the original email. */
  const OriginalHeader: string := "\nOriginal email: \n"

  /** The guard of the directive: the tone is not null and not the empty string. */
  predicate HasTone(req: EmailRequest) {
    req.tone.Some? && req.tone.value != []
  }

  /**
    The prompt as the code builds it. The directive interpolates the email
    content, not the tone: the tone only decides whether a directive is written.
   */
  function Prompt(req: EmailRequest): (p: string)
    ensures |p| == |Instruction|
                   + (if HasTone(req) then |DirectiveOpen| + |req.emailContent| + |DirectiveClose| else 0)
                   + |OriginalHeader| + |req.emailContent|
    ensures p[..|Instruction|] == Instruction
    ensures p[|p| - |OriginalHeader| - |req.emailContent|..] == OriginalHeader + req.emailContent
  {
    var directive := if HasTone(req) then DirectiveOpen + req.emailContent + DirectiveClose else "";
    Instruction + directive + OriginalHeader + req.emailContent
  }

  /** The two shapes of the prompt: with the tone directive right after the instruction, or without it. */
  lemma PromptShapes(req: EmailRequest)
    ensures HasTone(req) ==>
      Prompt(req) == Instruction + (DirectiveOpen + req.emailContent + DirectiveClose + OriginalHeader + req.emailContent)
    ensures !HasTone(req) ==> Prompt(req) == Instruction + (OriginalHeader + req.emailContent)
  {
    var c := req.emailContent;
    if HasTone(req) {
      assert Instruction + (DirectiveOpen + c + DirectiveClose) + OriginalHeader + c
          == Instruction + (DirectiveOpen + c + DirectiveClose + OriginalHeader + c);
    }
  }

  /** The text that follows the instruction sentence tells whether a directive was written. */
  lemma {:induction false} DirectiveIffTone(req: EmailRequest)
    ensures HasTone(req) <==> Prompt(req)[|Instruction|..|Instruction| + |DirectiveOpen|] == DirectiveOpen
  {
    var p, n := Prompt(req), |Instruction|;
    PromptShapes(req);
    if HasTone(req) {
      var rest := DirectiveOpen + req.emailContent + DirectiveClose + OriginalHeader + req.emailContent;
      assert p[n..n + |DirectiveOpen|] == rest[..|DirectiveOpen|];
    } else {
      var rest := OriginalHeader + req.emailContent;
      assert p[n] == rest[0] == '\n';
      assert p[n..n + |DirectiveOpen|][0] == p[n] != DirectiveOpen[0];
    }
  }

  /**
    The prompt determines exactly the content and whether a tone was given,
    and nothing more: two requests have the same prompt if and only if they
    have the same content and agree on the tone guard.
   */
  lemma {:induction false} PromptEqualIff(r1: EmailRequest, r2: EmailRequest)
    ensures Prompt(r1) == Prompt(r2) <==>
            r1.emailContent == r2.emailContent && HasTone(r1) == HasTone(r2)
  {
    if Prompt(r1) == Prompt(r2) {
      var p := Prompt(r1);
      DirectiveIffTone(r1);
      DirectiveIffTone(r2);
      assert HasTone(r1) == HasTone(r2);
      assert |r1.emailContent| == |r2.emailContent|;
      var c1, c2 := r1.emailContent, r2.emailContent;
      calc {
        c1;
        (OriginalHeader + c1)[|OriginalHeader|..];
        p[|p| - |OriginalHeader| - |c1|..][|OriginalHeader|..];
        (OriginalHeader + c2)[|OriginalHeader|..];
        c2;
      }
    }
  }

  /**
    As written, the value of the tone is never used: the same content with any
    two non-empty tones gives the same prompt.
   */
  lemma ToneValueIgnored(content: string, t1: string, t2: string)
    requires t1 != [] && t2 != []
    ensures Prompt(EmailRequest(content, Some(t1))) == Prompt(EmailRequest(content, Some(t2)))
  {
    PromptEqualIff(EmailRequest(content, Some(t1)), EmailRequest(content, Some(t2)));
  }

  /** The prompt the directive was evidently meant to produce: "Use a <tone> tone.". */
  function IntendedPrompt(req: EmailRequest): (p: string)
    ensures |p| == |Instruction|
                   + (if HasTone(req) then |DirectiveOpen| + |req.tone.value| + |DirectiveClose| else 0)
                   + |OriginalHeader| + |req.emailContent|
    ensures p[..|Instruction|] == Instruction
    ensures p[|p| - |OriginalHeader| - |req.emailContent|..] == OriginalHeader + req.emailContent
    ensures HasTone(req) ==>
      p[|Instruction|..|Instruction| + |DirectiveOpen| + |req.tone.value| + |DirectiveClose|]
        == DirectiveOpen + req.tone.value + DirectiveClose
    ensures !HasTone(req) ==> p == Prompt(req)
  {
    var directive := if HasTone(req) then DirectiveOpen + req.tone.value + DirectiveClose else "";
    Instruction + directive + OriginalHeader + req.emailContent
  }

  /** With the intended directive, two requests with the same content and a tone differ exactly when their tones do. */
  lemma {:induction false} IntendedToneDetermined(r1: EmailRequest, r2: EmailRequest)
    requires r1.emailContent == r2.emailContent && HasTone(r1) && HasTone(r2)
    ensures IntendedPrompt(r1) == IntendedPrompt(r2) <==> r1.tone == r2.tone
  {
    if IntendedPrompt(r1) == IntendedPrompt(r2) {
      var t1, t2 := r1.tone.value, r2.tone.value;
      var p, m := IntendedPrompt(r1), |Instruction|;
      assert |t1| == |t2|;
      var k := |DirectiveOpen| + |t1| + |DirectiveClose|;
      assert DirectiveOpen + t1 + DirectiveClose == p[m..m + k] == DirectiveOpen + t2 + DirectiveClose;
      calc {
        t1;
        (DirectiveOpen + t1 + DirectiveClose)[|DirectiveOpen|..|DirectiveOpen| + |t1|];
        (DirectiveOpen + t2 + DirectiveClose)[|DirectiveOpen|..|DirectiveOpen| + |t2|];
        t2;
      }
    }
  }
}
