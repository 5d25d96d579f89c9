/**
 * The cases service: the layer between the HTTP controller and the
 * repository. It maps the stored rows to response DTOs and turns a missing
 * case into a Not Found error. An error the repository throws reaches the
 * caller unchanged; the model carries it as a `Thrown` value.
 */
module CasesService {
  import opened Common
  import opened CreateCaseDto
  import opened CaseResponse
  import opened PrismaErrors
  import opened CasesRepository

  class CasesService {
    const repository: CasesRepository

    constructor (repository: CasesRepository)
      ensures this.repository == repository
    {
      this.repository := repository;
    }

    /**
     * `createCase`: stores the case and answers with its DTO. The DTO maps
     * back to exactly the new row, whose content is the request.
     */
    method CreateCase(dto: CreateCaseDto, failure: Option<Thrown>) returns (result: Result<CaseResponseDto, Thrown>)
      requires repository.Valid()
      modifies repository
      ensures repository.Valid()
      ensures result.Ok? <==> failure.None? && !HasIdentifier(old(repository.rows), dto.identifier)
      ensures result.Ok? ==>
        repository.rows == old(repository.rows) + [FromCaseResponse(result.value)] &&
        Content(FromCaseResponse(result.value)) == dto
      ensures result.Err? ==> repository.rows == old(repository.rows)
      ensures failure.None? && HasIdentifier(old(repository.rows), dto.identifier) ==>
        result == Err(ErrorValue(ConflictException(DuplicateIdentifierMessage)))
      ensures failure.Some? ==>
        result == Err(ErrorValue(TranslatePrismaError(failure.value, Some(ErrorContext(Some(DuplicateIdentifierMessage), None)))))
    {
      var created := repository.CreateCase(dto, failure);
      if created.Err? {
        return Err(ErrorValue(created.error));
      }
      ResponseRoundTrip(created.value);
      result := Ok(ToCaseResponseDto(created.value));
    }

    /** `listCases`: every case as a DTO, newest first. */
    method ListCases(failure: Option<Thrown>) returns (result: Result<seq<CaseResponseDto>, Thrown>)
      requires repository.Valid()
      ensures failure.Some? ==> result == Err(failure.value)
      ensures failure.None? ==> result.Ok? && |result.value| == |repository.rows|
      ensures failure.None? ==> forall i :: 0 <= i < |result.value| ==>
        FromCaseResponse(result.value[i]) in repository.rows
      ensures failure.None? ==> forall i :: 0 <= i < |repository.rows| ==>
        ToCaseResponseDto(repository.rows[i]) in result.value
      ensures failure.None? ==> forall i1, i2 :: 0 <= i1 < i2 < |result.value| ==>
        result.value[i1].createdAt > result.value[i2].createdAt
    {
      var records := repository.FindAll(failure);
      if records.Err? {
        return Err(records.error);
      }
      var responses := ToCaseResponseDtoList(records.value);
      assert |records.value| == |repository.rows| by {
        assert |multiset(records.value)| == |multiset(repository.rows)|;
      }
      forall i | 0 <= i < |responses| ensures FromCaseResponse(responses[i]) in repository.rows {
        ResponseRoundTrip(records.value[i]);
        assert records.value[i] in multiset(repository.rows);
      }
      forall i | 0 <= i < |repository.rows| ensures ToCaseResponseDto(repository.rows[i]) in responses {
        assert repository.rows[i] in multiset(records.value);
        var k :| 0 <= k < |records.value| && records.value[k] == repository.rows[i];
        assert responses[k] == ToCaseResponseDto(repository.rows[i]);
      }
      result := Ok(responses);
    }

    /** `getCase`: the case with the id as a DTO, or Not Found naming the id. */
    method GetCase(id: int, failure: Option<Thrown>) returns (result: Result<CaseResponseDto, Thrown>)
      requires repository.Valid()
      ensures failure.Some? ==> result == Err(failure.value)
      ensures failure.None? && !HasCaseId(repository.rows, id) ==>
        result == Err(ErrorValue(NotFoundException(CaseNotFoundMessage(id))))
      ensures failure.None? && HasCaseId(repository.rows, id) ==>
        result.Ok? && result.value.id == id && FromCaseResponse(result.value) in repository.rows
    {
      var found := repository.FindById(id, failure);
      if found.Err? {
        return Err(found.error);
      }
      if found.value.None? {
        return Err(ErrorValue(NotFoundException(CaseNotFoundMessage(id))));
      }
      ResponseRoundTrip(found.value.value);
      result := Ok(ToCaseResponseDto(found.value.value));
    }

    /** `deleteCase`: removes the case; the repository decides the errors. */
    method DeleteCase(id: int, failure: Option<Thrown>) returns (result: Result<(), Thrown>)
      requires repository.Valid()
      modifies repository
      ensures repository.Valid()
      ensures result.Ok? <==> failure.None? && HasCaseId(old(repository.rows), id)
      ensures result.Ok? ==> repository.rows == Filter(old(repository.rows), OtherId(id)) && !HasCaseId(repository.rows, id)
      ensures result.Err? ==> repository.rows == old(repository.rows)
      ensures failure.None? && !HasCaseId(old(repository.rows), id) ==>
        result == Err(ErrorValue(NotFoundException(CaseNotFoundMessage(id))))
      ensures failure.Some? ==>
        result == Err(ErrorValue(TranslatePrismaError(failure.value, Some(ErrorContext(None, Some(CaseNotFoundMessage(id)))))))
    {
      var deleted := repository.DeleteCase(id, failure);
      if deleted.Err? {
        return Err(ErrorValue(deleted.error));
      }
      result := Ok(());
    }
  }
}
